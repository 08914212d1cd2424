/**
 * Package tags: an append-only list of tags, its own reader for them, its own choice of the
 * "highest" tag and a string-level Next. Its private `tag` struct holds the same three
 * numbers as tag.Tag, so the model stores Tag.Tag values.
 *
 * Two behaviours are kept exactly as the code has them:
 * - Add splits the text after the 'v' on ',' rather than '.', so "v1,2,3" is a tag to it and
 *   "v1.0.0" is not;
 * - Highest moves to a later tag when ANY one of its numbers is larger than the current
 *   choice's, which is not the greatest tag in general.
 */
module Tags {
  import opened Wrappers
  import opened GoStrings
  import opened StrConv
  import Tag

  datatype TagsError =
    | NoLeadingV(s: string)
    | NotThreeParts(s: string)
    | BadNumber(s: string, which: Tag.Component, cause: NumError)
    | NoTags

  /** The reading half of Tags.Add: 'v', then three numbers separated by ','. */
  function Parse(s: string): (r: Result<Tag.Tag, TagsError>)
    ensures !HasPrefix(s, "v") ==> r == Err(NoLeadingV(s))
    ensures r.Ok? ==> HasPrefix(s, "v") && |Split(s[1..], ',')| == 3
  {
    if !HasPrefix(s, "v") then Err(NoLeadingV(s))
    else
      var parts := Split(TrimPrefix(s, "v"), ',');
      if |parts| != 3 then Err(NotThreeParts(s))
      else
        var (a, ea) := Atoi(parts[0]);
        if ea.Some? then Err(BadNumber(s, Tag.Major, ea.value))
        else
          var (b, eb) := Atoi(parts[1]);
          if eb.Some? then Err(BadNumber(s, Tag.Minor, eb.value))
          else
            var (c, ec) := Atoi(parts[2]);
            if ec.Some? then Err(BadNumber(s, Tag.Detail, ec.value))
            else Ok(Tag.Tag(a, b, c))
  }

  /** Highest's test: `a` replaces the current choice `b` when any one number is larger. */
  predicate Beats(a: Tag.Tag, b: Tag.Tag)
    ensures b.Less(a) ==> Beats(a, b)
    ensures Beats(a, b) ==> a != b
  {
    a.major > b.major || a.minor > b.minor || a.detail > b.detail
  }

  /** The index Highest holds after looking at the first `n` tags. */
  function Scan(ts: seq<Tag.Tag>, n: nat): (k: nat)
    requires 1 <= n <= |ts|
    ensures k < n
  {
    if n == 1 then 0
    else
      var h := Scan(ts, n - 1);
      if Beats(ts[n - 1], ts[h]) then n - 1 else h
  }

  /** The index of the tag Highest renders. */
  function Chosen(ts: seq<Tag.Tag>): (k: nat)
    requires ts != []
    ensures k < |ts|
  {
    Scan(ts, |ts|)
  }

  class Tags {
    var tags: seq<Tag.Tag>

    /** tags.New: an empty list. */
    constructor ()
      ensures tags == []
    {
      tags := [];
    }

    /** Tags.Add: appends the tag `s` names, or reports why it cannot and changes nothing. */
    method Add(s: string) returns (err: Option<TagsError>)
      modifies this
      ensures Parse(s).Ok? ==> err == None && tags == old(tags) + [Parse(s).value]
      ensures Parse(s).Err? ==> err == Some(Parse(s).error) && tags == old(tags)
    {
      match Parse(s)
      case Ok(t) =>
        tags := tags + [t];
        err := None;
      case Err(e) =>
        err := Some(e);
    }

    /** Tags.HasTags: true once an Add has succeeded, as only a successful Add grows the list. */
    function HasTags(): (r: bool)
      reads this
      ensures r <==> tags != []
    {
      |tags| > 0
    }

    /** Tags.Highest: the text of the chosen tag, or an error for an empty list. */
    method Highest() returns (r: Result<string, TagsError>)
      ensures tags == [] ==> r == Err(NoTags)
      ensures tags != [] ==> r == Ok(tags[Chosen(tags)].String())
    {
      if |tags| == 0 {
        return Err(NoTags);
      }
      var high := 0;
      for i := 1 to |tags|
        invariant high == Scan(tags, i)
      {
        if Beats(tags[i], tags[high]) {
          high := i;
        }
      }
      r := Ok(tags[high].String());
    }
  }

  /** tags.Next: the text with its last '.'-separated part increased by one, or "$TAG". */
  function Next(s: string): (r: string)
    ensures r == Tag.AnonymousTag <==>
      !(Tag.MatchString(s) && |Split(s, '.')| == 3 && Atoi(Split(s, '.')[2]).1.None?)
    ensures r != Tag.AnonymousTag ==>
      Split(r, '.') == Split(s, '.')[..2] + [Itoa(Inc(Atoi(Split(s, '.')[2]).0))]
  {
    if !Tag.MatchString(s) then Tag.AnonymousTag
    else
      var parts := Split(s, '.');
      if |parts| != 3 then Tag.AnonymousTag
      else
        var (n, err) := Atoi(parts[2]);
        if err.Some? then Tag.AnonymousTag
        else
          NextPieces(parts, Inc(n));
          Join(parts[..2] + [Itoa(Inc(n))], '.')
  }

  /** The first two pieces and a number, joined by '.', split back and are never "$TAG". */
  lemma {:induction false} NextPieces(parts: seq<string>, n: GoInt)
    requires |parts| == 3 && '.' !in parts[0] && '.' !in parts[1]
    ensures var t := Join(parts[..2] + [Itoa(n)], '.');
      Split(t, '.') == parts[..2] + [Itoa(n)] && t != Tag.AnonymousTag
  {
    var out := parts[..2] + [Itoa(n)];
    ItoaExcludes(n, '.');
    SplitJoin(out, '.');
    JoinHasSep(out, '.');
    assert '.' !in Tag.AnonymousTag;
  }

  // ---------------------------------------------------------------------------------------
  // Add
  // ---------------------------------------------------------------------------------------

  /** Add rejects every string without a ',' after its 'v', whatever the '.'s in it. */
  lemma {:induction false} ParseNeedsCommas(s: string)
    requires ',' !in s
    ensures Parse(s).Err?
  {
    if HasPrefix(s, "v") {
      SplitNoSep(s[1..], ',');
    }
  }

  /** Add reads three numerals it finds between ','s back as the numbers they print. */
  lemma {:induction false} ParseOfPieces(s: string, a: GoInt, b: GoInt, c: GoInt)
    requires HasPrefix(s, "v") && Split(TrimPrefix(s, "v"), ',') == [Itoa(a), Itoa(b), Itoa(c)]
    ensures Parse(s) == Ok(Tag.Tag(a, b, c))
  {
    AtoiItoa(a);
    AtoiItoa(b);
    AtoiItoa(c);
  }

  /** Add accepts 'v' and three numbers separated by ','; each number comes back as written. */
  lemma {:induction false} ParseCommaText(a: GoInt, b: GoInt, c: GoInt)
    ensures Parse("v" + Itoa(a) + "," + Itoa(b) + "," + Itoa(c)) == Ok(Tag.Tag(a, b, c))
  {
    ItoaExcludes(a, ',');
    ItoaExcludes(b, ',');
    ItoaExcludes(c, ',');
    CommaPieces(Itoa(a), Itoa(b), Itoa(c));
    ParseOfPieces("v" + Itoa(a) + "," + Itoa(b) + "," + Itoa(c), a, b, c);
  }

  /** "v" and three comma-free pieces joined by ',' split back into those pieces after the 'v'. */
  lemma {:induction false} CommaPieces(x: string, y: string, z: string)
    requires ',' !in x && ',' !in y && ',' !in z
    ensures var s := "v" + x + "," + y + "," + z;
      HasPrefix(s, "v") && Split(TrimPrefix(s, "v"), ',') == [x, y, z]
  {
    var s := "v" + x + "," + y + "," + z;
    JoinThree(x, y, z, ',');
    assert TrimPrefix(s, "v") == Join([x, y, z], ',');
    SplitJoin([x, y, z], ',');
  }

  /** The first case of TestAll (tags_test.go) expects Add("v1.0.0") to succeed; it fails. */
  lemma TestAllFirstAddFails()
    ensures Parse("v1.0.0").Err?
  {
    ParseNeedsCommas("v1.0.0");
  }

  // ---------------------------------------------------------------------------------------
  // Highest
  // ---------------------------------------------------------------------------------------

  /** No tag after the one Highest chose beats it. */
  lemma {:induction false} ScanNotBeatenLater(ts: seq<Tag.Tag>, n: nat)
    requires 1 <= n <= |ts|
    ensures forall j :: Scan(ts, n) < j < n ==> !Beats(ts[j], ts[Scan(ts, n)])
  {
    if n > 1 {
      ScanNotBeatenLater(ts, n - 1);
    }
  }

  /** A later tag that is greater in the Less order always replaces the current choice. */
  lemma {:induction false} GreaterReplaces(ts: seq<Tag.Tag>, n: nat)
    requires 1 <= n < |ts|
    requires ts[n].Greater(ts[Scan(ts, n)])
    ensures Scan(ts, n + 1) == n
  {
    Tag.Trichotomy(ts[n], ts[Scan(ts, n)]);
  }

  /** Over strictly ascending tags Highest picks the last one. */
  lemma {:induction false} AscendingPicksLast(ts: seq<Tag.Tag>, n: nat)
    requires 1 <= n <= |ts|
    requires forall i :: 0 < i < |ts| ==> ts[i - 1].Less(ts[i])
    ensures Scan(ts, n) == n - 1
  {
    if n > 1 {
      AscendingPicksLast(ts, n - 1);
      Tag.Trichotomy(ts[n - 1], ts[n - 2]);
    }
  }

  /** Highest is not the greatest tag: after v1.1.0 it moves to v1.0.5, which is smaller. */
  lemma HighestIsNotTheMaximum()
    ensures var ts := [Tag.Tag(1, 1, 0), Tag.Tag(1, 0, 5)];
      Chosen(ts) == 1 && ts[1].Less(ts[0])
  {
  }

  // ---------------------------------------------------------------------------------------
  // Next
  // ---------------------------------------------------------------------------------------

  /** The text of a tag splits on '.' into "v" and its first number, then the other two. */
  lemma {:induction false} StringDots(t: Tag.Tag)
    ensures Split(t.String(), '.') == ["v" + Itoa(t.major), Itoa(t.minor), Itoa(t.detail)]
  {
    var xs := ["v" + Itoa(t.major), Itoa(t.minor), Itoa(t.detail)];
    ItoaExcludes(t.major, '.');
    ItoaExcludes(t.minor, '.');
    ItoaExcludes(t.detail, '.');
    assert '.' !in xs[0];
    JoinThree(xs[0], xs[1], xs[2], '.');
    SplitJoin(xs, '.');
  }

  /** tags.Next of a text whose '.'-pieces are `p`, when the last is a numeral Atoi accepts. */
  lemma {:induction false} NextOfPieces(s: string, p: seq<string>, n: GoInt)
    requires Tag.MatchString(s) && Split(s, '.') == p && |p| == 3 && Atoi(p[2]) == (n, None)
    ensures Next(s) == p[0] + "." + p[1] + "." + Itoa(Inc(n))
  {
    var r := Next(s);
    assert r != Tag.AnonymousTag;
    var out := [p[0], p[1], Itoa(Inc(n))];
    assert Split(r, '.') == out by {
      LastReplaced(p, Itoa(Inc(n)));
    }
    assert r == Join(out, '.');
    JoinThree(p[0], p[1], Itoa(Inc(n)), '.');
  }

  /** The first two of three pieces followed by a new last one. */
  lemma {:induction false} LastReplaced(p: seq<string>, x: string)
    requires |p| == 3
    ensures p[..2] + [x] == [p[0], p[1], x]
  {
  }

  /** On the text of a tag without negative numbers, tags.Next and tag.Next agree. */
  lemma {:induction false} NextAgreesWithTagNext(t: Tag.Tag)
    requires t.major >= 0 && t.minor >= 0 && t.detail >= 0
    ensures Next(t.String()) == Tag.Next(t.String())
  {
    var s := t.String();
    Tag.MatchTagString(t);
    assert Tag.MatchString(s);
    StringDots(t);
    AtoiItoa(t.detail);
    NextOfPieces(s, Split(s, '.'), t.detail);
    Tag.NextOfString(t);
  }

  /** The first number of "v-1.0.0" is no digit run, so TagFormat finds no match in it. */
  lemma NegativeTextUnmatched()
    ensures !Tag.MatchString("v-1.0.0")
  {
    var s := "v-1.0.0";
    assert s[0] == 'v' && s[1] == '-';
    assert forall i :: 1 <= i < |s| ==> s[i] != 'v';
    Tag.NoDigitAfterV(s);
  }

  /** tag.Next reads a negative number that tags.Next refuses. */
  lemma NextDisagreesOnNegative()
    ensures Next("v-1.0.0") == Tag.AnonymousTag
    ensures Tag.Next("v-1.0.0") == "v-1.0.1"
  {
    NegativeTextUnmatched();
    RenderNegative();
    Tag.NextOfString(Tag.Tag(-1, 0, 0));
  }

  lemma RenderNegative()
    ensures Tag.Tag(-1, 0, 0).String() == "v-1.0.0"
    ensures Tag.Tag(-1, 0, 0).Next() == Tag.Tag(-1, 0, 1)
    ensures Tag.Tag(-1, 0, 1).String() == "v-1.0.1"
  {
    assert Itoa(-1) == "-1";
  }
}
