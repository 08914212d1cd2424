/**
 * The decisions in gogit.go, the command itself. Every `git`, `go` or `mdtoc` run, every file
 * read and every directory walk is outside the model: what they produce comes in as
 * parameters (output lines and a failure flag, file contents, the walked paths).
 */
module GoGit {
  import opened Wrappers
  import opened GoStrings
  import opened StrConv
  import Tag
  import Tags
  import TestFrame

  /** What `git status` prints when nothing needs adding or committing. */
  const StatusOK := "working tree clean"

  /** What a line of `git ls-remote --tags` holds when it names a tag. */
  const RemoteTagFormat := "refs/tags/"

  /** The README.md lines between which mdtoc writes the table of contents. */
  const TocStart := "<!-- toc -->"
  const TocEnd := "<!-- /toc -->"

  // ---------------------------------------------------------------------------------------
  // The actions and the checks they run
  // ---------------------------------------------------------------------------------------

  datatype Check =
    | GotoGitTop
    | HooksInstalled
    | StdFiles
    | GoTests
    | GoVets
    | MdToc
    | AllCommitted
    | HaveRemote
    | GitTag

  const PreCommitChecks := [GotoGitTop, HooksInstalled, StdFiles, GoTests, GoVets, MdToc]

  /** The checks an action runs, in order; None for an action gogit does not know. */
  function Checks(action: string): (r: Option<seq<Check>>)
    ensures r.Some? ==> r.value != []
  {
    if action == "hooks" then Some([GotoGitTop, HooksInstalled])
    else if action == "pre-commit" then Some(PreCommitChecks)
    else if action == "stdfiles" then Some([GotoGitTop, HooksInstalled, StdFiles])
    else if action == "gotests" then Some([GotoGitTop, HooksInstalled, GoTests])
    else if action == "govets" then Some([GotoGitTop, HooksInstalled, GoVets])
    else if action == "mdtoc" then Some([MdToc])
    else if action == "pre-push" then Some(PreCommitChecks + [AllCommitted, HaveRemote, GitTag])
    else if action == "allcommitted" then Some([GotoGitTop, HooksInstalled, AllCommitted])
    else if action == "haveremote" then Some([GotoGitTop, HooksInstalled, HaveRemote])
    else if action == "gittag" then Some([GotoGitTop, HooksInstalled, GitTag])
    else None
  }

  /** pre-push runs what pre-commit runs, then allCommitted, haveRemote and gitTag. */
  lemma PrePushExtendsPreCommit()
    ensures Checks("pre-push").Some? && Checks("pre-commit").Some?
    ensures Checks("pre-push").value == Checks("pre-commit").value + [AllCommitted, HaveRemote, GitTag]
  {
  }

  /** Every action but mdtoc first moves to the top of the work tree and checks the hooks. */
  lemma {:induction false} ActionsStartAtGitTop(action: string)
    requires Checks(action).Some? && action != "mdtoc"
    ensures |Checks(action).value| >= 2 && Checks(action).value[..2] == [GotoGitTop, HooksInstalled]
  {
  }

  /** Every check some action runs is also run by pre-push. */
  lemma {:induction false} PrePushRunsEveryCheck(action: string, c: Check)
    requires Checks(action).Some? && c in Checks(action).value
    ensures c in Checks("pre-push").value
  {
  }

  /** The index of the first check that reports an error, or |checks| when none does. */
  function FirstFailure(checks: seq<Check>, outcome: Check -> Option<string>): (k: nat)
    ensures k <= |checks|
    ensures forall j :: 0 <= j < k ==> outcome(checks[j]).None?
    ensures k < |checks| ==> outcome(checks[k]).Some?
  {
    if checks == [] then 0
    else if outcome(checks[0]).Some? then 0
    else 1 + FirstFailure(checks[1..], outcome)
  }

  /**
   * The loop in main with `check` (gogit.go:86-88, 97-103): the checks run in order and the
   * first error ends the run. `outcome` is what each check reports. Returns how many ran and
   * the error that stopped them.
   */
  method RunChecks(checks: seq<Check>, outcome: Check -> Option<string>) returns (ran: nat, failure: Option<string>)
    ensures var k := FirstFailure(checks, outcome);
      && ran == (if k < |checks| then k + 1 else |checks|)
      && failure == (if k < |checks| then outcome(checks[k]) else None)
  {
    ran := 0;
    while ran < |checks|
      invariant ran <= |checks|
      invariant forall j :: 0 <= j < ran ==> outcome(checks[j]).None?
    {
      var err := outcome(checks[ran]);
      ran := ran + 1;
      if err.Some? {
        FirstFailureAt(checks, outcome, ran - 1);
        return ran, err;
      }
    }
    FirstFailureAt(checks, outcome, ran);
    failure := None;
  }

  /** The first failure is where the checks before all passed and this one did not. */
  lemma {:induction false} FirstFailureAt(checks: seq<Check>, outcome: Check -> Option<string>, k: nat)
    requires k <= |checks|
    requires forall j :: 0 <= j < k ==> outcome(checks[j]).None?
    requires k < |checks| ==> outcome(checks[k]).Some?
    ensures FirstFailure(checks, outcome) == k
  {
    if k > 0 {
      FirstFailureAt(checks[1..], outcome, k - 1);
    }
  }

  /** An action succeeds when it is known and none of its checks reports an error. */
  predicate RunsClean(action: string, outcome: Check -> Option<string>) {
    Checks(action).Some? && forall c :: c in Checks(action).value ==> outcome(c).None?
  }

  /**
   * main for an action: an unknown action prints the usage and exits 1; otherwise the checks
   * run until the first error, which exits 1, and a clean run exits 0.
   */
  method RunAction(action: string, outcome: Check -> Option<string>) returns (code: int, ran: seq<Check>)
    ensures Checks(action).None? ==> code == 1 && ran == []
    ensures code == 0 <==> RunsClean(action, outcome)
    ensures Checks(action).Some? ==> ran <= Checks(action).value
    ensures code == 0 ==> ran == Checks(action).value
  {
    var checks := Checks(action);
    if checks.None? {
      return 1, [];
    }
    var n, failure := RunChecks(checks.value, outcome);
    ran := checks.value[..n];
    if failure.Some? {
      var k := FirstFailure(checks.value, outcome);
      assert checks.value[k] in checks.value;
      code := 1;
    } else {
      assert ran == checks.value;
      code := 0;
    }
  }

  /** Whatever the checks report, a clean pre-push means a clean pre-commit. */
  lemma {:induction false} PrePushCleanMeansPreCommitClean(outcome: Check -> Option<string>)
    requires RunsClean("pre-push", outcome)
    ensures RunsClean("pre-commit", outcome)
  {
    PrePushExtendsPreCommit();
    forall c | c in Checks("pre-commit").value
      ensures outcome(c).None?
    {
      assert c in Checks("pre-push").value;
    }
  }

  /**
   * testframe.Make run on each name in turn, on the files the previous run left: the first
   * error, or the files once every name has its test file.
   */
  function MakeAll(srcs: seq<string>, files: map<string, string>): (r: Result<map<string, string>, TestFrame.MakeError>)
  {
    if srcs == [] then Ok(files)
    else
      match MakeAll(srcs[..|srcs| - 1], files)
      case Err(e) => Err(e)
      case Ok(fs) => TestFrame.MakeOf(srcs[|srcs| - 1], fs)
  }

  /**
   * After MakeAll succeeds, every file there was is unchanged, every name has its test file,
   * and every added file is the test file of one of the names.
   */
  lemma {:induction false} MakeAllGrows(srcs: seq<string>, files: map<string, string>)
    requires MakeAll(srcs, files).Ok?
    ensures var fs := MakeAll(srcs, files).value;
      && files.Keys <= fs.Keys && (forall p :: p in files ==> fs[p] == files[p])
      && (forall i :: 0 <= i < |srcs| ==> TestFrame.TestName(srcs[i]) in fs)
      && (forall p :: p in fs && p !in files ==> exists i :: 0 <= i < |srcs| && p == TestFrame.TestName(srcs[i]))
  {
    if srcs != [] {
      var init := srcs[..|srcs| - 1];
      MakeAllGrows(init, files);
      TestFileAdded(files, MakeAll(init, files).value, srcs, MakeAll(srcs, files).value);
    }
  }

  /** Adding the last name's test file keeps what MakeAll promises, with that name in the list. */
  lemma {:induction false} TestFileAdded(files: map<string, string>, fs: map<string, string>, srcs: seq<string>,
                                          fs': map<string, string>)
    requires srcs != []
    requires files.Keys <= fs.Keys && forall p :: p in files ==> fs[p] == files[p]
    requires var init := srcs[..|srcs| - 1];
      && (forall i :: 0 <= i < |init| ==> TestFrame.TestName(init[i]) in fs)
      && (forall p :: p in fs && p !in files ==> exists i :: 0 <= i < |init| && p == TestFrame.TestName(init[i]))
    requires fs'.Keys == fs.Keys + {TestFrame.TestName(srcs[|srcs| - 1])}
    requires forall p :: p in fs ==> fs'[p] == fs[p]
    ensures files.Keys <= fs'.Keys && forall p :: p in files ==> fs'[p] == files[p]
    ensures forall i :: 0 <= i < |srcs| ==> TestFrame.TestName(srcs[i]) in fs'
    ensures forall p :: p in fs' && p !in files ==>
      exists i :: 0 <= i < |srcs| && p == TestFrame.TestName(srcs[i])
  {
    var init := srcs[..|srcs| - 1];
    forall i | 0 <= i < |srcs|
      ensures TestFrame.TestName(srcs[i]) in fs'
    {
      if i < |init| {
        assert srcs[i] == init[i];
      }
    }
    forall p | p in fs' && p !in files
      ensures exists i :: 0 <= i < |srcs| && p == TestFrame.TestName(srcs[i])
    {
      if p in fs {
        var i :| 0 <= i < |init| && p == TestFrame.TestName(init[i]);
        assert srcs[i] == init[i];
      } else {
        assert p == TestFrame.TestName(srcs[|srcs| - 1]);
      }
    }
  }

  /** Once a name fails, the names after it change nothing: the first error is the outcome. */
  lemma {:induction false} MakeAllStops(srcs: seq<string>, n: nat, files: map<string, string>)
    requires n <= |srcs| && MakeAll(srcs[..n], files).Err?
    ensures MakeAll(srcs, files) == MakeAll(srcs[..n], files)
    decreases |srcs| - n
  {
    if n < |srcs| {
      assert srcs[..n + 1][..n] == srcs[..n];
      MakeAllStops(srcs, n + 1, files);
    } else {
      assert srcs[..n] == srcs;
    }
  }

  /**
   * `gogit make-test-frame` (gogit.go:53-61): no file names print the usage; otherwise
   * testframe.Make runs on each name in turn and the first error exits 1, leaving the files
   * as the names before it made them. No existing file is ever changed, and every file added
   * is the test file of one of the names.
   */
  method MakeTestFrames(srcs: seq<string>, files: map<string, string>) returns (code: int, fs: map<string, string>)
    ensures srcs == [] ==> code == 1 && fs == files
    ensures code == 0 || code == 1
    ensures code == 0 <==> srcs != [] && MakeAll(srcs, files).Ok?
    ensures code == 0 ==> fs == MakeAll(srcs, files).value
    ensures code == 1 && srcs != [] ==>
      exists n :: 0 <= n < |srcs| && MakeAll(srcs[..n], files) == Ok(fs) && MakeAll(srcs[..n + 1], files).Err?
    ensures forall p :: p in files ==> p in fs && fs[p] == files[p]
    ensures forall p :: p in fs && p !in files ==> exists i :: 0 <= i < |srcs| && p == TestFrame.TestName(srcs[i])
    ensures code == 0 ==> forall i :: 0 <= i < |srcs| ==> TestFrame.TestName(srcs[i]) in fs
  {
    fs := files;
    if srcs == [] {
      return 1, fs;
    }
    for i := 0 to |srcs|
      invariant MakeAll(srcs[..i], files) == Ok(fs)
      invariant forall p :: p in files ==> p in fs && fs[p] == files[p]
      invariant forall p :: p in fs && p !in files ==> exists j :: 0 <= j < i && p == TestFrame.TestName(srcs[j])
    {
      assert srcs[..i + 1][..i] == srcs[..i];
      var r := TestFrame.Make(srcs[i], fs);
      if r.Err? {
        MakeAllStops(srcs, i + 1, files);
        return 1, fs;
      }
      fs := r.value;
    }
    assert srcs[..|srcs|] == srcs;
    MakeAllGrows(srcs, files);
    code := 0;
  }

  // ---------------------------------------------------------------------------------------
  // gitTag: the push gate
  // ---------------------------------------------------------------------------------------

  /**
   * gitTag's test (gogit.go:280): the push is refused when there is a remote tag other than
   * v0.0.0 and the local tag is not Greater. A nil remote tag is zero, so Greater never sees it.
   */
  predicate PushBlocked(local: Tag.Tag, remote: Option<Tag.Tag>) {
    !Tag.IsZero(remote) && !local.Greater(remote.value)
  }

  /** The push is refused exactly when a non-zero remote tag is not below the local one. */
  lemma {:induction false} PushBlockedMeaning(local: Tag.Tag, remote: Option<Tag.Tag>)
    ensures PushBlocked(local, remote) <==>
      remote.Some? && remote.value != Tag.Tag(0, 0, 0) && !remote.value.Less(local)
  {
    if remote.Some? {
      Tag.Trichotomy(local, remote.value);
    }
  }

  /** Tagging the local tree with the suggested tag, the remote tag's Next, lifts the block. */
  lemma {:induction false} SuggestionUnblocks(remote: Tag.Tag)
    requires remote.detail < MaxInt
    ensures !PushBlocked(remote.Next(), Some(remote))
  {
    PushBlockedMeaning(remote.Next(), Some(remote));
  }

  datatype TagCheckError =
    | ExecFailed
    | NoLocalTag
    | BadLocalTag(line: string, cause: Tags.TagsError)
    | BadRemoteTags(lines: seq<string>)
    | LocalNotNewer(remote: Tag.Tag, suggested: Tag.Tag)

  /**
   * gitTag once localGitTag and remoteGitTag have answered: their errors pass through, a
   * blocked push is an error that suggests the remote tag's Next, and otherwise the local
   * tag is the one to push.
   */
  function GitTagVerdict(local: Result<Tag.Tag, TagCheckError>, remote: Result<Option<Tag.Tag>, TagCheckError>)
    : (r: Result<Tag.Tag, TagCheckError>)
    ensures local.Err? ==> r == Err(local.error)
    ensures local.Ok? && remote.Err? ==> r == Err(remote.error)
    ensures local.Ok? && remote.Ok? ==>
      (r.Ok? <==> !PushBlocked(local.value, remote.value)) &&
      (r.Ok? ==> r.value == local.value)
    ensures local.Ok? && remote.Ok? && r.Err? ==>
      remote.value.Some? && r.error == LocalNotNewer(remote.value.value, remote.value.value.Next())
  {
    if local.Err? then Err(local.error)
    else if remote.Err? then Err(remote.error)
    else if PushBlocked(local.value, remote.value) then
      Err(LocalNotNewer(remote.value.value, remote.value.value.Next()))
    else Ok(local.value)
  }

  // ---------------------------------------------------------------------------------------
  // localGitTag and remoteGitTag
  // ---------------------------------------------------------------------------------------

  /** Every line is a tag to Tags.Add. */
  predicate AllParse(lines: seq<string>) {
    forall i :: 0 <= i < |lines| ==> Tags.Parse(lines[i]).Ok?
  }

  /** The tags Add makes of lines it accepts, in their order. */
  function ParsedTags(lines: seq<string>): (ts: seq<Tag.Tag>)
    requires AllParse(lines)
    ensures |ts| == |lines|
  {
    if lines == [] then []
    else ParsedTags(lines[..|lines| - 1]) + [Tags.Parse(lines[|lines| - 1]).value]
  }

  /** The index of the first line Add refuses, or |lines| when it accepts them all. */
  function FirstUnparsed(lines: seq<string>): (k: nat)
    ensures k <= |lines|
    ensures forall j :: 0 <= j < k ==> Tags.Parse(lines[j]).Ok?
    ensures k < |lines| ==> Tags.Parse(lines[k]).Err?
  {
    if lines == [] then 0
    else if Tags.Parse(lines[0]).Err? then 0
    else 1 + FirstUnparsed(lines[1..])
  }

  /** The tag whose text Tags.Highest returns for a list of the tags of `lines`. */
  function HighestOf(lines: seq<string>): Tag.Tag
    requires lines != [] && AllParse(lines)
  {
    ParsedTags(lines)[Tags.Chosen(ParsedTags(lines))]
  }

  /** Turns the text Highest returned back into the tag it names. */
  method TagOfHighest(tgs: Tags.Tags) returns (t: Tag.Tag)
    requires tgs.tags != []
    ensures t == tgs.tags[Tags.Chosen(tgs.tags)]
  {
    var h := tgs.Highest();
    Tag.NewString(tgs.tags[Tags.Chosen(tgs.tags)]);
    t := Tag.New(h.value).0;
  }

  /**
   * localGitTag (gogit.go:300-323), given what `git tag` printed: a failed run is an error,
   * so is printing nothing; the first line Add refuses is an error naming it; otherwise the
   * result is the tag Highest picks.
   */
  method LocalGitTag(lines: seq<string>, failed: bool) returns (r: Result<Tag.Tag, TagCheckError>)
    ensures failed ==> r == Err(ExecFailed)
    ensures !failed && lines == [] ==> r == Err(NoLocalTag)
    ensures !failed && lines != [] && !AllParse(lines) ==>
      var k := FirstUnparsed(lines);
      r == Err(BadLocalTag(lines[k], Tags.Parse(lines[k]).error))
    ensures !failed && lines != [] && AllParse(lines) ==> r == Ok(HighestOf(lines))
  {
    if failed {
      return Err(ExecFailed);
    }
    if |lines| < 1 {
      return Err(NoLocalTag);
    }
    var tgs := new Tags.Tags();
    for i := 0 to |lines|
      invariant AllParse(lines[..i])
      invariant tgs.tags == ParsedTags(lines[..i])
    {
      var err := tgs.Add(lines[i]);
      if err.Some? {
        AllParseBefore(lines, i);
        FirstUnparsedAt(lines, i);
        return Err(BadLocalTag(lines[i], err.value));
      }
      TakeOneMore(lines, i);
      ParsedAppend(lines[..i], lines[i]);
    }
    assert lines[..|lines|] == lines;
    var t := TagOfHighest(tgs);
    r := Ok(t);
  }

  lemma {:induction false} AllParseBefore(lines: seq<string>, i: nat)
    requires i <= |lines| && AllParse(lines[..i])
    ensures forall j :: 0 <= j < i ==> Tags.Parse(lines[j]).Ok?
  {
    assert forall j :: 0 <= j < i ==> lines[..i][j] == lines[j];
  }

  /** The first refused line is where all lines before were accepted and this one was not. */
  lemma {:induction false} FirstUnparsedAt(lines: seq<string>, k: nat)
    requires k < |lines|
    requires forall j :: 0 <= j < k ==> Tags.Parse(lines[j]).Ok?
    requires Tags.Parse(lines[k]).Err?
    ensures FirstUnparsed(lines) == k
    ensures !AllParse(lines)
  {
    if k > 0 {
      FirstUnparsedAt(lines[1..], k - 1);
    }
  }

  /** As written, localGitTag succeeds only when every `git tag` line holds a ','. */
  lemma {:induction false} LocalTagsNeedCommas(lines: seq<string>)
    requires AllParse(lines)
    ensures forall i :: 0 <= i < |lines| ==> ',' in lines[i]
  {
    forall i | 0 <= i < |lines|
      ensures ',' in lines[i]
    {
      if ',' !in lines[i] {
        Tags.ParseNeedsCommas(lines[i]);
      }
    }
  }

  /** The text remoteGitTag takes from one line, or "" when it takes nothing. */
  function RemoteCandidate(line: string): (m: string)
    ensures m != "" ==> Contains(line, RemoteTagFormat) && m == Tag.FindString(line)
    ensures ',' !in m
  {
    if Contains(line, RemoteTagFormat) then Tag.FindString(line) else ""
  }

  /** The texts remoteGitTag hands to Add: one per line that names a tag and holds a match. */
  function RemoteCandidates(lines: seq<string>): (cs: seq<string>)
    ensures |cs| <= |lines|
    ensures forall i :: 0 <= i < |cs| ==> cs[i] != "" && ',' !in cs[i]
  {
    if lines == [] then []
    else
      var m := RemoteCandidate(lines[|lines| - 1]);
      RemoteCandidates(lines[..|lines| - 1]) + (if m == "" then [] else [m])
  }

  /**
   * remoteGitTag (gogit.go:325-355), given what `git ls-remote --tags` printed: a failed run
   * is an error; fewer than two lines, or no line naming a tag, mean no remote tag; a text
   * Add refuses is an error carrying all the lines; otherwise the tag Highest picks.
   */
  method RemoteGitTag(lines: seq<string>, failed: bool) returns (r: Result<Option<Tag.Tag>, TagCheckError>)
    ensures failed ==> r == Err(ExecFailed)
    ensures !failed && |lines| < 2 ==> r == Ok(None)
    ensures !failed && |lines| >= 2 ==>
      var cs := RemoteCandidates(lines);
      && (cs == [] ==> r == Ok(None))
      && (!AllParse(cs) ==> r == Err(BadRemoteTags(lines)))
      && (cs != [] && AllParse(cs) ==> r == Ok(Some(HighestOf(cs))))
  {
    if failed {
      return Err(ExecFailed);
    }
    if |lines| < 2 {
      return Ok(None);
    }
    var tgs := new Tags.Tags();
    for i := 0 to |lines|
      invariant AllParse(RemoteCandidates(lines[..i]))
      invariant tgs.tags == ParsedTags(RemoteCandidates(lines[..i]))
    {
      CandidatesStep(lines, i);
      if !Contains(lines[i], RemoteTagFormat) {
        continue;
      }
      var t := Tag.FindString(lines[i]);
      if t != "" {
        Tags.ParseNeedsCommas(t);
        var err := tgs.Add(t);
        if err.Some? {
          RemoteRefused(lines, i);
          return Err(BadRemoteTags(lines));
        }
        // A TagFormat match holds no ',', so Add has just refused it.
        assert false;
      }
    }
    assert lines[..|lines|] == lines;
    if !tgs.HasTags() {
      return Ok(None);
    }
    var t := TagOfHighest(tgs);
    r := Ok(Some(t));
  }

  /** One more line adds its candidate, if it has one, to the candidates. */
  lemma {:induction false} CandidatesStep(lines: seq<string>, i: nat)
    requires i < |lines|
    ensures var m := RemoteCandidate(lines[i]);
      RemoteCandidates(lines[..i + 1]) == RemoteCandidates(lines[..i]) + (if m == "" then [] else [m])
  {
    assert lines[..i + 1][..i] == lines[..i];
  }

  /** A prefix one element longer. */
  lemma {:induction false} TakeOneMore<T>(xs: seq<T>, i: nat)
    requires i < |xs|
    ensures xs[..i + 1] == xs[..i] + [xs[i]]
  {
  }

  /** Appending a line Add accepts appends its tag. */
  lemma {:induction false} ParsedAppend(ls: seq<string>, l: string)
    requires AllParse(ls) && Tags.Parse(l).Ok?
    ensures AllParse(ls + [l])
    ensures ParsedTags(ls + [l]) == ParsedTags(ls) + [Tags.Parse(l).value]
  {
    assert (ls + [l])[..|ls|] == ls;
  }

  /** Every text remoteGitTag takes from a line is among the candidates. */
  lemma {:induction false} CandidateIn(lines: seq<string>, i: nat)
    requires i < |lines| && RemoteCandidate(lines[i]) != ""
    ensures RemoteCandidate(lines[i]) in RemoteCandidates(lines)
  {
    var init := lines[..|lines| - 1];
    if i < |lines| - 1 {
      assert init[i] == lines[i];
      CandidateIn(init, i);
    }
  }

  /** When Add refuses the candidate of line i, not every candidate parses. */
  lemma {:induction false} RemoteRefused(lines: seq<string>, i: nat)
    requires i < |lines|
    requires RemoteCandidate(lines[i]) != "" && Tags.Parse(RemoteCandidate(lines[i])).Err?
    ensures !AllParse(RemoteCandidates(lines))
  {
    CandidateIn(lines, i);
  }

  /**
   * As written, remoteGitTag never finds a remote tag: every text it takes is a TagFormat
   * match, which holds no ',', so Add refuses it.
   */
  lemma {:induction false} RemoteTagsNeverParse(lines: seq<string>)
    requires RemoteCandidates(lines) != []
    ensures !AllParse(RemoteCandidates(lines))
  {
    Tags.ParseNeedsCommas(RemoteCandidates(lines)[0]);
  }

  // ---------------------------------------------------------------------------------------
  // mdToc
  // ---------------------------------------------------------------------------------------

  /** A line mdToc counts: one starting (in its first column) with either marker. */
  predicate IsTocMarker(line: string) {
    HasPrefix(line, TocStart) || HasPrefix(line, TocEnd)
  }

  /** How many lines mdToc counts as markers. */
  function MarkerCount(lines: seq<string>): (n: nat)
    ensures n <= |lines|
  {
    if lines == [] then 0
    else MarkerCount(lines[..|lines| - 1]) + (if IsTocMarker(lines[|lines| - 1]) then 1 else 0)
  }

  /** Counting markers adds up over the parts of a file. */
  lemma {:induction false} MarkerCountAppend(a: seq<string>, b: seq<string>)
    ensures MarkerCount(a + b) == MarkerCount(a) + MarkerCount(b)
    decreases |b|
  {
    if b == [] {
      assert a + b == a;
    } else {
      var b0 := b[..|b| - 1];
      assert (a + b)[..|a + b| - 1] == a + b0;
      MarkerCountAppend(a, b0);
    }
  }

  /** Lines none of which is a marker count nothing. */
  lemma {:induction false} NoMarkers(a: seq<string>)
    requires forall i :: 0 <= i < |a| ==> !IsTocMarker(a[i])
    ensures MarkerCount(a) == 0
  {
    if a != [] {
      NoMarkers(a[..|a| - 1]);
    }
  }

  /**
   * A README with one start and one end marker, and no other marker line, counts two. The
   * count does not look at which is which or at their order.
   */
  lemma {:induction false} TwoMarkers(a: seq<string>, m1: string, b: seq<string>, m2: string, c: seq<string>)
    requires IsTocMarker(m1) && IsTocMarker(m2)
    requires forall i :: 0 <= i < |a| ==> !IsTocMarker(a[i])
    requires forall i :: 0 <= i < |b| ==> !IsTocMarker(b[i])
    requires forall i :: 0 <= i < |c| ==> !IsTocMarker(c[i])
    ensures MarkerCount(a + [m1] + b + [m2] + c) == 2
  {
    NoMarkers(a);
    NoMarkers(b);
    NoMarkers(c);
    MarkerCountAppend(a, [m1]);
    MarkerCountAppend(a + [m1], b);
    MarkerCountAppend(a + [m1] + b, [m2]);
    MarkerCountAppend(a + [m1] + b + [m2], c);
  }

  /** Two start markers also count two. */
  lemma TwoStartMarkers()
    ensures IsTocMarker(TocStart) && MarkerCount([TocStart, TocStart]) == 2
  {
    assert TocStart[..|TocStart|] == TocStart;
    assert [TocStart, TocStart][..1] == [TocStart];
  }

  datatype TocAction = NoTableOfContents | Refreshed

  datatype TocError = NoReadme | RefreshFailed | WrongMarkerCount(count: nat)

  /**
   * mdToc (gogit.go:236-267), given README.md's contents (None when it cannot be read) and
   * whether `mdtoc --inplace README.md` fails: no markers is not an error, two markers refresh
   * the table, any other count is an error.
   */
  method CheckMdToc(readme: Option<string>, refreshFails: bool) returns (r: Result<TocAction, TocError>)
    ensures readme.None? ==> r == Err(NoReadme)
    ensures readme.Some? ==>
      var n := MarkerCount(Split(readme.value, '\n'));
      && (n == 0 ==> r == Ok(NoTableOfContents))
      && (n == 2 ==> r == if refreshFails then Err(RefreshFailed) else Ok(Refreshed))
      && (n != 0 && n != 2 ==> r == Err(WrongMarkerCount(n)))
  {
    if readme.None? {
      return Err(NoReadme);
    }
    var lines := Split(readme.value, '\n');
    var n := 0;
    for i := 0 to |lines|
      invariant n == MarkerCount(lines[..i])
    {
      assert lines[..i + 1][..i] == lines[..i];
      if HasPrefix(lines[i], TocStart) || HasPrefix(lines[i], TocEnd) {
        n := n + 1;
      }
    }
    assert lines[..|lines|] == lines;
    if n == 0 {
      r := Ok(NoTableOfContents);
    } else if n == 2 {
      if refreshFails {
        return Err(RefreshFailed);
      }
      r := Ok(Refreshed);
    } else {
      r := Err(WrongMarkerCount(n));
    }
  }

  // ---------------------------------------------------------------------------------------
  // goTests
  // ---------------------------------------------------------------------------------------

  /** The test goTests expects for a source: its first ".go" replaced by "_test.go". */
  function WantTest(src: string): string {
    ReplaceFirst(src, ".go", "_test.go")
  }

  /** The walk's classification: paths ending in "_test.go" are tests, other ".go" paths sources. */
  method Classify(paths: seq<string>) returns (srcs: set<string>, tests: set<string>)
    ensures tests == set p | p in paths && HasSuffix(p, "_test.go")
    ensures srcs == set p | p in paths && HasSuffix(p, ".go") && !HasSuffix(p, "_test.go")
    ensures srcs !! tests
  {
    srcs, tests := {}, {};
    for i := 0 to |paths|
      invariant tests == set p | p in paths[..i] && HasSuffix(p, "_test.go")
      invariant srcs == set p | p in paths[..i] && HasSuffix(p, ".go") && !HasSuffix(p, "_test.go")
    {
      assert paths[..i + 1] == paths[..i] + [paths[i]];
      if HasSuffix(paths[i], "_test.go") {
        tests := tests + {paths[i]};
      } else if HasSuffix(paths[i], ".go") {
        srcs := srcs + {paths[i]};
      }
    }
    assert paths[..|paths|] == paths;
  }

  /**
   * The pairing loop (gogit.go:185-193): the sources whose expected test is missing, and
   * whether any source has its test.
   */
  method PairTests(srcs: set<string>, tests: set<string>) returns (lacking: set<string>, testsFound: bool)
    ensures lacking == set s | s in srcs && WantTest(s) !in tests
    ensures testsFound <==> exists s :: s in srcs && WantTest(s) in tests
  {
    lacking, testsFound := {}, false;
    var todo := srcs;
    while todo != {}
      invariant todo <= srcs
      invariant lacking == set s | s in srcs && s !in todo && WantTest(s) !in tests
      invariant testsFound <==> exists s :: s in srcs && s !in todo && WantTest(s) in tests
      decreases |todo|
    {
      var s :| s in todo;
      if WantTest(s) !in tests {
        lacking := lacking + {s};
      } else {
        testsFound := true;
      }
      todo := todo - {s};
    }
  }

  /**
   * goTests (gogit.go:163-208), given the walked paths and whether `go test ./...` fails:
   * the sources lacking a test, whether the tests ran (they do when some source has its
   * test), and whether the check passes.
   */
  method CheckGoTests(paths: seq<string>, testRunFails: bool) returns (lacking: set<string>, ranTests: bool, passed: bool)
    ensures lacking == set s | s in paths && HasSuffix(s, ".go") && !HasSuffix(s, "_test.go") &&
      WantTest(s) !in set p | p in paths && HasSuffix(p, "_test.go")
    ensures ranTests <==> (exists s :: s in paths && HasSuffix(s, ".go") && !HasSuffix(s, "_test.go") &&
                                       WantTest(s) in paths && HasSuffix(WantTest(s), "_test.go"))
    ensures passed <==> lacking == {} && !(ranTests && testRunFails)
  {
    var srcs, tests := Classify(paths);
    lacking, ranTests := PairTests(srcs, tests);
    passed := lacking == {} && !(ranTests && testRunFails);
  }

  /** A ".go" that does not occur in `a` does not start `a + ".go" + b` unless `a` is empty. */
  lemma {:induction false} NoGoAtStart(a: string, b: string)
    requires a != [] && !Contains(a, ".go")
    ensures !HasPrefix(a + ".go" + b, ".go")
  {
    var s := a + ".go" + b;
    if |a| >= 3 {
      assert s[..3] == a[..3];
      assert a[0..] == a;
    } else if |a| == 1 {
      assert s[1] == '.';
    } else {
      assert s[2] == '.';
    }
  }

  /** A string without ".go" has none after its first character either. */
  lemma {:induction false} NoGoInTail(a: string)
    requires a != [] && !Contains(a, ".go")
    ensures !Contains(a[1..], ".go")
  {
  }

  /** Past a first character that starts no ".go", WantTest keeps it and goes on. */
  lemma {:induction false} WantTestStep(s: string)
    requires s != [] && !HasPrefix(s, ".go")
    ensures WantTest(s) == [s[0]] + WantTest(s[1..])
  {
  }

  /** The first ".go" in a path is where goTests puts "_test.go". */
  lemma {:induction false} WantTestFirstGo(a: string, b: string)
    requires !Contains(a, ".go")
    ensures WantTest(a + ".go" + b) == a + "_test.go" + b
  {
    var s := a + ".go" + b;
    if a == [] {
      assert s == ".go" + b;
      assert HasPrefix(s, ".go");
    } else {
      var t := a[1..] + ".go" + b;
      assert WantTest(s) == [a[0]] + WantTest(t) by {
        NoGoAtStart(a, b);
        WantTestStep(s);
        assert s[1..] == t;
      }
      assert WantTest(t) == a[1..] + "_test.go" + b by {
        NoGoInTail(a);
        WantTestFirstGo(a[1..], b);
      }
      ConsRest(a, "_test.go", b);
    }
  }

  /** Putting back the first character of `a` in front of a[1..] + x + y. */
  lemma {:induction false} ConsRest(a: string, x: string, y: string)
    requires a != []
    ensures [a[0]] + (a[1..] + x + y) == a + x + y
  {
  }

  /**
   * When a source path holds ".go" only at its end, goTests expects exactly the test file
   * make-test-frame writes for it.
   */
  lemma {:induction false} WantTestIsTestName(d: string)
    requires !Contains(d, ".go")
    ensures WantTest(d + ".go") == TestFrame.TestName(d + ".go")
  {
    WantTestFirstGo(d, "");
    assert d + ".go" + "" == d + ".go";
    assert (d + ".go")[..|d|] == d;
  }

  /**
   * With a ".go" earlier in the path the two differ: for "a.go.d/b.go" goTests looks for
   * "a_test.go.d/b.go", while make-test-frame writes "a.go.d/b_test.go".
   */
  lemma {:induction false} WantTestDiffersFromTestName(a: string, b: string)
    requires !Contains(a, ".go") && HasSuffix(b, ".go")
    ensures WantTest(a + ".go" + b) == a + "_test.go" + b
    ensures TestFrame.TestName(a + ".go" + b) == a + ".go" + b[..|b| - 3] + "_test.go"
    ensures WantTest(a + ".go" + b) != TestFrame.TestName(a + ".go" + b)
  {
    WantTestFirstGo(a, b);
    var p := a + ".go" + b;
    assert HasSuffix(p, ".go") by {
      assert p[|p| - 3..] == b[|b| - 3..];
    }
    assert p[..|p| - 3] == a + ".go" + b[..|b| - 3];
    assert (a + "_test.go" + b)[|a|] == '_';
    assert (a + ".go" + b[..|b| - 3] + "_test.go")[|a|] == '.';
  }

  // ---------------------------------------------------------------------------------------
  // allCommitted
  // ---------------------------------------------------------------------------------------

  /**
   * allCommitted (gogit.go:210-228), given what `git status` printed: the work tree is
   * committed exactly when the run succeeded and some line says the tree is clean.
   */
  method CheckAllCommitted(lines: seq<string>, failed: bool) returns (committed: bool)
    ensures committed <==> !failed && exists i :: 0 <= i < |lines| && Contains(lines[i], StatusOK)
  {
    if failed {
      return false;
    }
    for i := 0 to |lines|
      invariant forall j :: 0 <= j < i ==> !Contains(lines[j], StatusOK)
    {
      if Contains(lines[i], StatusOK) {
        return true;
      }
    }
    committed := false;
  }

  /** A status line counts wherever in it the clean-tree message stands. */
  lemma {:induction false} CleanMessageAnywhere(pre: string, post: string)
    ensures Contains(pre + StatusOK + post, StatusOK)
  {
    var s := pre + StatusOK + post;
    assert s[|pre|..][..|StatusOK|] == StatusOK;
  }
}
