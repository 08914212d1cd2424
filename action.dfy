/**
 * Package action: the suggestions a run collects for the user and prints at the end. Go keeps
 * them in a package-level slice; here they are the `entries` of one Suggestions object.
 */
module Action {
  import opened GoStrings
  import opened StrConv

  /** The indent Suggest puts in front of every entry. */
  const Indent := "  "

  /** The header Output prints first, without its colour markup. */
  const Header := "[gogit] suggestion(s):"

  class Suggestions {
    var entries: seq<string>

    /** Every entry is an indented suggestion. */
    predicate Valid()
      reads this
    {
      forall i :: 0 <= i < |entries| ==> HasPrefix(entries[i], Indent)
    }

    constructor ()
      ensures entries == [] && Valid()
    {
      entries := [];
    }

    /**
     * action.Suggest, with the text already formatted: appends exactly one entry, the text
     * behind the indent, leaves the earlier entries alone and returns the text unindented.
     */
    method Suggest(text: string) returns (r: string)
      requires Valid()
      modifies this
      ensures Valid()
      ensures entries == old(entries) + [Indent + text]
      ensures r == text
    {
      entries := entries + [Indent + text];
      r := text;
    }

    /**
     * action.Output, as the lines it prints: nothing when there are no suggestions, else the
     * header and then every entry in the order it was suggested.
     */
    method Output() returns (out: seq<string>)
      requires Valid()
      ensures entries == [] ==> out == []
      ensures entries != [] ==> |out| == |entries| + 1 && out[0] == Header && out[1..] == entries
      ensures forall i :: 1 <= i < |out| ==> HasPrefix(out[i], Indent)
    {
      out := [];
      if |entries| > 0 {
        out := [Header];
        for i := 0 to |entries|
          invariant out == [Header] + entries[..i]
        {
          out := out + [entries[i]];
        }
        assert entries[..|entries|] == entries;
      }
    }
  }

  /** TestSuggest (action/action_test.go): ten calls to Suggest leave ten entries. */
  method TenSuggestions() returns (n: nat)
    ensures n == 10
  {
    var s := new Suggestions();
    for i := 0 to 10
      invariant |s.entries| == i && s.Valid()
    {
      var _ := s.Suggest("this is suggestion " + Itoa(i));
    }
    n := |s.entries|;
  }
}
