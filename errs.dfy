/**
 * Package errs: the list of error lines the checks collect. Go keeps it in a package-level
 * slice; here it is the `lines` field of one ErrorList object that the program shares.
 */
module Errs {
  import opened Wrappers
  import opened GoStrings

  class ErrorList {
    var lines: seq<string>

    /** The empty list the program starts with. */
    constructor ()
      ensures lines == []
    {
      lines := [];
    }

    /**
     * errs.Err: nil for an empty list, otherwise one message holding the lines joined by
     * newlines; when no line holds a newline itself, splitting the message gives them back.
     */
    function Err(): (e: Option<string>)
      reads this
      ensures e.None? <==> lines == []
      ensures e.Some? && (forall i :: 0 <= i < |lines| ==> '\n' !in lines[i]) ==>
        Split(e.value, '\n') == lines
    {
      if |lines| == 0 then None
      else
        assert (forall i :: 0 <= i < |lines| ==> '\n' !in lines[i]) ==>
          Split(Join(lines, '\n'), '\n') == lines
        by {
          if forall i :: 0 <= i < |lines| ==> '\n' !in lines[i] {
            SplitJoin(lines, '\n');
          }
        }
        Some(Join(lines, '\n'))
    }

    /**
     * errs.Add: appends the non-empty arguments in their order, never removing or reordering
     * earlier lines, and returns what Err returns afterwards.
     */
    method Add(strs: seq<string>) returns (e: Option<string>)
      modifies this
      ensures lines == old(lines) + DropEmpty(strs)
      ensures e == Err()
      ensures (exists i :: 0 <= i < |strs| && strs[i] != "") ==> e.Some?
    {
      for i := 0 to |strs|
        invariant lines == old(lines) + DropEmpty(strs[..i])
      {
        assert strs[..i + 1] == strs[..i] + [strs[i]];
        DropEmptySnoc(strs[..i], strs[i]);
        if strs[i] != "" {
          lines := lines + [strs[i]];
        }
      }
      assert strs[..|strs|] == strs;
      if exists i :: 0 <= i < |strs| && strs[i] != "" {
        var i :| 0 <= i < |strs| && strs[i] != "";
        DropEmptyNonEmpty(strs, i);
      }
      e := Err();
    }
  }
}
