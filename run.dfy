/**
 * Package run: run.Exec and its memo cache. Starting the process is outside the model: the
 * `runner` parameter stands for it, giving the combined output and whether it failed. Go keeps
 * the cache in a package-level map; here it is the `entries` field of one Cache object.
 */
module Run {
  import opened GoStrings

  /** What running a command produced: its combined output and whether it failed. */
  datatype Outcome = Outcome(output: string, failed: bool)

  /**
   * The cache key of a command: its words joined by single spaces. A command whose words hold
   * no space can be read back from its key, so only words with spaces make keys collide.
   */
  function Key(cmd: seq<string>): (key: string)
    ensures cmd != [] && (forall i :: 0 <= i < |cmd| ==> ' ' !in cmd[i]) ==> Split(key, ' ') == cmd
  {
    if cmd != [] && forall i :: 0 <= i < |cmd| ==> ' ' !in cmd[i] then
      SplitJoin(cmd, ' ');
      Join(cmd, ' ')
    else
      Join(cmd, ' ')
  }

  /** The lines Exec keeps from an output: the '\n'-separated pieces that are not empty. */
  function Lines(output: string): (ls: seq<string>)
    ensures forall i :: 0 <= i < |ls| ==> ls[i] != "" && '\n' !in ls[i]
  {
    var ls := DropEmpty(Split(output, '\n'));
    assert forall i :: 0 <= i < |ls| ==> ls[i] in Split(output, '\n');
    ls
  }

  class Cache {
    var entries: map<string, seq<string>>

    constructor ()
      ensures entries == map[]
    {
      entries := map[];
    }

    /**
     * run.Exec: the lines of a command run before come from the cache, with no error and
     * without running it again. Otherwise the command runs, its lines are stored under its
     * key whether or not it failed, and the lines and the failure are returned.
     */
    method Exec(cmd: seq<string>, runner: seq<string> -> Outcome) returns (lines: seq<string>, failed: bool)
      requires Key(cmd) in entries || |cmd| >= 1
      modifies this
      ensures Key(cmd) in old(entries) ==>
        lines == old(entries)[Key(cmd)] && !failed && entries == old(entries)
      ensures Key(cmd) !in old(entries) ==>
        && lines == Lines(runner(cmd).output)
        && failed == runner(cmd).failed
        && entries == old(entries)[Key(cmd) := lines]
    {
      var cli := Key(cmd);
      if cli in entries {
        return entries[cli], false;
      }
      var outcome := runner(cmd);
      var pieces := Split(outcome.output, '\n');
      lines := [];
      for i := 0 to |pieces|
        invariant lines == DropEmpty(pieces[..i])
      {
        assert pieces[..i + 1][..i] == pieces[..i];
        if pieces[i] != "" {
          lines := lines + [pieces[i]];
        }
      }
      assert pieces[..|pieces|] == pieces;
      failed := outcome.failed;
      entries := entries[cli := lines];
    }
  }

  lemma {:induction false} SplitText(ls: seq<string>)
    requires forall i :: 0 <= i < |ls| ==> '\n' !in ls[i]
    ensures Split(Join(ls + [""], '\n'), '\n') == ls + [""]
  {
    var xs := ls + [""];
    assert forall i :: 0 <= i < |ls| ==> xs[i] == ls[i];
    SplitJoin(xs, '\n');
  }

  lemma {:induction false} DropTrailingEmpty(ls: seq<string>)
    requires forall i :: 0 <= i < |ls| ==> ls[i] != ""
    ensures DropEmpty(ls + [""]) == ls
  {
    assert (ls + [""])[..|ls|] == ls;
    DropEmptyKeepsNonEmpty(ls);
  }

  /** Lines gives back every line of an output made of non-empty lines, each ending in '\n'. */
  lemma {:induction false} LinesOfText(ls: seq<string>)
    requires forall i :: 0 <= i < |ls| ==> ls[i] != "" && '\n' !in ls[i]
    ensures Lines(Join(ls + [""], '\n')) == ls
  {
    SplitText(ls);
    DropTrailingEmpty(ls);
  }

  /** Commands are told apart only by their joined words: ["a b"] and ["a", "b"] share a key. */
  lemma KeysCollide()
    ensures Key(["a b"]) == Key(["a", "b"])
  {
    assert ["a", "b"][1..] == ["b"];
  }

  /** The second run of a failed command reports its lines again, now without the failure. */
  method FailureIsForgotten(cmd: seq<string>, runner: seq<string> -> Outcome)
    returns (first: seq<string>, firstFailed: bool, second: seq<string>, secondFailed: bool)
    requires |cmd| >= 1 && runner(cmd).failed
    ensures firstFailed && !secondFailed && second == first
  {
    var c := new Cache();
    first, firstFailed := c.Exec(cmd, runner);
    second, secondFailed := c.Exec(cmd, runner);
  }

  /** TestExec (run/run_test.go): one run on an empty cache leaves exactly one entry. */
  method OneEntry(cmd: seq<string>, runner: seq<string> -> Outcome) returns (size: nat)
    requires |cmd| >= 1
    ensures size == 1
  {
    var c := new Cache();
    var _, _ := c.Exec(cmd, runner);
    size := |c.entries|;
  }
}
