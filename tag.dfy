/**
 * Package tag: a git tag of the form v12.34.56 read into three numbers so that tags can be
 * compared. A Go `*Tag` that may be nil is an `Option<Tag>` here.
 *
 * The reader is not a Semantic Versioning parser: each part goes through strconv.Atoi, so a
 * part may carry a sign or leading zeros, and a part may be negative.
 */
module Tag {
  import opened Wrappers
  import opened GoStrings
  import opened StrConv

  /** The placeholder the package-level Next returns for text that is not a tag. */
  const AnonymousTag := "$TAG"

  /** Which of the three numbers failed to parse. */
  datatype Component = Major | Minor | Detail

  datatype TagError =
    | NoLeadingV(s: string)
    | NotThreeParts(s: string, parts: seq<string>)
    | BadNumber(s: string, which: Component, cause: NumError)

  datatype Tag = Tag(major: GoInt, minor: GoInt, detail: GoInt) {

    /** The three numbers, most significant first. */
    function Fields(): seq<int> {
      [major, minor, detail]
    }

    /** Tag.Less: the first number that differs decides. */
    predicate Less(ot: Tag) {
      if major < ot.major then true
      else if major > ot.major then false
      else if minor < ot.minor then true
      else if minor > ot.minor then false
      else if detail < ot.detail then true
      else if detail > ot.detail then false
      else false
    }

    /** Tag.Equal: a nil tag equals nothing. */
    predicate Equal(ot: Option<Tag>)
      ensures Equal(ot) <==> ot == Some(this)
    {
      if ot.None? then false
      else major == ot.value.major && minor == ot.value.minor && detail == ot.value.detail
    }

    /** Tag.Greater: neither Less nor Equal. */
    predicate Greater(ot: Tag) {
      if Less(ot) || Equal(Some(ot)) then false else true
    }

    /** Tag.String: "v%d.%d.%d". */
    function String(): (s: string)
      ensures HasPrefix(s, "v")
    {
      "v" + Itoa(major) + "." + Itoa(minor) + "." + Itoa(detail)
    }

    /**
     * Tag.Next: a fresh tag with the same major and minor number and the detail number
     * plus one (Go's int addition, so MaxInt wraps to MinInt).
     */
    function Next(): (nx: Tag)
      ensures nx.major == major && nx.minor == minor
      ensures detail < MaxInt ==> nx.detail == detail + 1 && Less(nx)
      ensures detail == MaxInt ==> nx.detail == MinInt
    {
      Tag(major, minor, Inc(detail))
    }
  }

  const Zero := Tag(0, 0, 0)

  /** tag.NewZero */
  function NewZero(): (t: Tag)
    ensures IsZero(Some(t))
  {
    Zero
  }

  /** Tag.IsZero, which also accepts a nil receiver. */
  predicate IsZero(t: Option<Tag>)
    ensures IsZero(t) <==> t == None || t == Some(Tag(0, 0, 0))
  {
    t.None? || (t.value.major == 0 && t.value.minor == 0 && t.value.detail == 0)
  }

  /** The pieces New reads the numbers from: the text after the 'v', split on '.'. */
  function Parts(s: string): seq<string>
    requires HasPrefix(s, "v")
  {
    Split(TrimPrefix(s, "v"), '.')
  }

  /**
   * tag.New: the (always non-nil) tag and the error. Numbers read before a failing one
   * stay in the returned tag; the failing one holds what Atoi returned for it.
   */
  function New(s: string): (r: (Tag, Option<TagError>))
    ensures !HasPrefix(s, "v") ==> r == (Zero, Some(NoLeadingV(s)))
    ensures HasPrefix(s, "v") && |Parts(s)| != 3 ==> r == (Zero, Some(NotThreeParts(s, Parts(s))))
    ensures r.1.None? <==>
      HasPrefix(s, "v") && |Parts(s)| == 3 && forall k :: 0 <= k < 3 ==> Atoi(Parts(s)[k]).1.None?
  {
    if !HasPrefix(s, "v") then (Zero, Some(NoLeadingV(s)))
    else
      var parts := Parts(s);
      if |parts| != 3 then (Zero, Some(NotThreeParts(s, parts)))
      else
        var (a, ea) := Atoi(parts[0]);
        if ea.Some? then (Tag(a, 0, 0), Some(BadNumber(s, Major, ea.value)))
        else
          var (b, eb) := Atoi(parts[1]);
          if eb.Some? then (Tag(a, b, 0), Some(BadNumber(s, Minor, eb.value)))
          else
            var (c, ec) := Atoi(parts[2]);
            if ec.Some? then (Tag(a, b, c), Some(BadNumber(s, Detail, ec.value)))
            else (Tag(a, b, c), None)
  }

  /** tag.Next on a string: the successor's text, or "$TAG" when the string is no tag. */
  function Next(s: string): (r: string)
    ensures r == AnonymousTag <==> New(s).1.Some?
    ensures r != AnonymousTag ==> New(r) == (New(s).0.Next(), None)
  {
    var (tg, err) := New(s);
    if err.Some? then AnonymousTag
    else
      NewString(tg.Next());
      tg.Next().String()
  }

  /** The numbers a failing New did read are kept, in order. */
  lemma {:induction false} NewKeepsParsedFields(s: string)
    requires New(s).1.Some? && New(s).1.value.BadNumber?
    ensures var (t, e) := New(s);
      && HasPrefix(s, "v") && |Parts(s)| == 3
      && e.value.cause == Atoi(Parts(s)[if e.value.which == Major then 0 else if e.value.which == Minor then 1 else 2]).1.value
      && (e.value.which != Major ==> Atoi(Parts(s)[0]) == (t.major, None))
      && (e.value.which == Detail ==> Atoi(Parts(s)[1]) == (t.minor, None))
  {
  }

  // ---------------------------------------------------------------------------------------
  // Round trips between New and String
  // ---------------------------------------------------------------------------------------

  /** Every tag is read back from its own text. */
  lemma {:induction false} NewString(t: Tag)
    ensures New(t.String()) == (t, None)
  {
    PartsOfString(t);
    AtoiItoa(t.major);
    AtoiItoa(t.minor);
    AtoiItoa(t.detail);
  }

  /** The parts New reads from a tag's text are the three numerals String wrote. */
  lemma {:induction false} PartsOfString(t: Tag)
    ensures Parts(t.String()) == [Itoa(t.major), Itoa(t.minor), Itoa(t.detail)]
  {
    ItoaExcludes(t.major, '.');
    ItoaExcludes(t.minor, '.');
    ItoaExcludes(t.detail, '.');
    PartsOfText(Itoa(t.major), Itoa(t.minor), Itoa(t.detail));
  }

  /** "v" and three dot-free pieces joined by '.' fall apart into those pieces. */
  lemma {:induction false} PartsOfText(a: string, b: string, c: string)
    requires '.' !in a && '.' !in b && '.' !in c
    ensures Parts("v" + a + "." + b + "." + c) == [a, b, c]
  {
    var s := "v" + a + "." + b + "." + c;
    JoinThree(a, b, c, '.');
    assert TrimPrefix(s, "v") == Join([a, b, c], '.');
    SplitJoin([a, b, c], '.');
  }

  /** Text that String could have produced: 'v' and three canonical numerals joined by '.'. */
  predicate CanonicalTag(s: string) {
    HasPrefix(s, "v") && |Parts(s)| == 3 && forall k :: 0 <= k < 3 ==> Canonical(Parts(s)[k])
  }

  lemma {:induction false} StringOfParts(t: Tag, p: seq<string>)
    requires |p| == 3 && Itoa(t.major) == p[0] && Itoa(t.minor) == p[1] && Itoa(t.detail) == p[2]
    ensures t.String() == "v" + Join(p, '.')
  {
    TextOfParts(p);
  }

  /** Three pieces joined by '.' after a "v", written out. */
  lemma {:induction false} TextOfParts(p: seq<string>)
    requires |p| == 3
    ensures "v" + p[0] + "." + p[1] + "." + p[2] == "v" + Join(p, '.')
  {
    var a, b, c := p[0], p[1], p[2];
    assert [a, b, c] == p;
    JoinThree(a, b, c, '.');
    assert "v" + (a + "." + b + "." + c) == "v" + a + "." + b + "." + c;
  }

  /** A canonical tag text that New accepts is rendered back unchanged. */
  lemma {:induction false} StringNew(s: string)
    requires CanonicalTag(s) && New(s).1.None?
    ensures New(s).0.String() == s
  {
    var p := Parts(s);
    var t := New(s).0;
    assert t == Tag(Atoi(p[0]).0, Atoi(p[1]).0, Atoi(p[2]).0);
    assert Itoa(t.major) == p[0] && Itoa(t.minor) == p[1] && Itoa(t.detail) == p[2] by {
      assert Canonical(p[0]) && Canonical(p[1]) && Canonical(p[2]);
      ItoaAtoi(p[0]);
      ItoaAtoi(p[1]);
      ItoaAtoi(p[2]);
    }
    StringOfParts(t, p);
  }

  // ---------------------------------------------------------------------------------------
  // Ordering
  // ---------------------------------------------------------------------------------------

  /**
   * Precedence as section 11 of Semantic Versioning 2.0.0 defines it for the numeric part:
   * the first field, from the left, in which the two differ decides.
   */
  ghost predicate Precedes(a: Tag, b: Tag) {
    exists k :: 0 <= k < 3 && a.Fields()[..k] == b.Fields()[..k] && a.Fields()[k] < b.Fields()[k]
  }

  /** Less is exactly Semantic Versioning precedence on the three numbers. */
  lemma {:induction false} LessIsPrecedence(a: Tag, b: Tag)
    ensures a.Less(b) <==> Precedes(a, b)
  {
    var fa, fb := a.Fields(), b.Fields();
    if a.Less(b) {
      if a.major < b.major {
        assert fa[..0] == fb[..0];
      } else if a.minor < b.minor {
        assert fa[..1] == fb[..1];
      } else {
        assert fa[..2] == fb[..2];
      }
    }
    if Precedes(a, b) {
      var k :| 0 <= k < 3 && fa[..k] == fb[..k] && fa[k] < fb[k];
      if k == 1 {
        assert fa[0] == fa[..1][0];
      } else if k == 2 {
        assert fa[0] == fa[..2][0] && fa[1] == fa[..2][1];
      }
    }
  }

  /** Less is a strict order: irreflexive and transitive. */
  lemma {:induction false} LessStrictOrder(a: Tag, b: Tag, c: Tag)
    ensures !a.Less(a)
    ensures a.Less(b) && b.Less(c) ==> a.Less(c)
  {
  }

  /** For two tags exactly one of Less, Equal and Greater holds; Greater is Less reversed. */
  lemma {:induction false} Trichotomy(a: Tag, b: Tag)
    ensures a.Less(b) || a.Equal(Some(b)) || a.Greater(b)
    ensures !(a.Less(b) && a.Equal(Some(b)))
    ensures !(a.Less(b) && a.Greater(b))
    ensures !(a.Equal(Some(b)) && a.Greater(b))
    ensures a.Greater(b) <==> b.Less(a)
  {
  }

  // ---------------------------------------------------------------------------------------
  // The cases of tag_test.go
  // ---------------------------------------------------------------------------------------

  /** Next on the text of a tag is the text of its successor. */
  lemma {:induction false} NextOfString(t: Tag)
    ensures Next(t.String()) == t.Next().String()
  {
    NewString(t);
  }

  lemma RenderSmall()
    ensures Tag(0, 0, 0).String() == "v0.0.0"
    ensures Tag(0, 0, 1).String() == "v0.0.1"
    ensures Tag(0, 0, 2).String() == "v0.0.2"
    ensures Tag(0, 0, 9).String() == "v0.0.9"
  {
  }

  lemma RenderTwoDigits()
    ensures Tag(0, 0, 10).String() == "v0.0.10"
    ensures Tag(12, 34, 99).String() == "v12.34.99"
  {
    DecimalTwoDigits(10);
    DecimalTwoDigits(12);
    DecimalTwoDigits(34);
    DecimalTwoDigits(99);
  }

  lemma RenderThreeDigits()
    ensures Tag(12, 34, 100).String() == "v12.34.100"
  {
    DecimalTwoDigits(12);
    DecimalTwoDigits(34);
    DecimalThreeDigits(100);
  }

  /** The cases of TestNext. */
  lemma NextExamples()
    ensures Next("v0.0.0") == "v0.0.1"
    ensures Next("v0.0.1") == "v0.0.2"
    ensures Next("v0.0.9") == "v0.0.10"
    ensures Next("v12.34.99") == "v12.34.100"
    ensures Next("") == AnonymousTag
  {
    RenderSmall();
    RenderTwoDigits();
    RenderThreeDigits();
    NextOfString(Tag(0, 0, 0));
    NextOfString(Tag(0, 0, 1));
    NextOfString(Tag(0, 0, 9));
    NextOfString(Tag(12, 34, 99));
    assert !HasPrefix("", "v");
  }

  lemma NewRejectsExamples()
    ensures New("v1.2").1 == Some(NotThreeParts("v1.2", ["1", "2"]))
    ensures New("1.2.3").1 == Some(NoLeadingV("1.2.3"))
  {
    assert HasPrefix("v1.2", "v") by {
      assert "v1.2"[..1] == "v";
    }
    assert TrimPrefix("v1.2", "v") == "1.2";
    assert "1.2" == "1" + ['.'] + "2";
    SplitCons("1", "2", '.');
    SplitNoSep("2", '.');
    assert Parts("v1.2") == ["1", "2"];
    assert !HasPrefix("1.2.3", "v") by {
      assert "1.2.3"[..1] == "1";
    }
  }

  /** The cases of TestLessGreaterEqual and TestIsZero. */
  lemma CompareExamples()
    ensures var a, b := Tag(1, 2, 3), Tag(1, 2, 4);
      && !a.Less(a) && !a.Greater(a) && a.Equal(Some(a))
      && a.Less(b) && !a.Greater(b) && !a.Equal(Some(b))
      && !b.Less(a) && b.Greater(a) && !b.Equal(Some(a))
    ensures var a, b := Tag(1, 2, 3), Tag(10, 2, 4);
      && a.Less(b) && !a.Greater(b) && !b.Less(a) && b.Greater(a)
    ensures Tag(2, 0, 0).Greater(Tag(1, 0, 10)) && !Tag(2, 0, 0).Less(Tag(1, 0, 10))
    ensures IsZero(None) && IsZero(Some(Tag(0, 0, 0)))
    ensures !IsZero(Some(Tag(1, 0, 0))) && !IsZero(Some(Tag(0, 1, 0))) && !IsZero(Some(Tag(0, 0, 1)))
  {
  }

  // ---------------------------------------------------------------------------------------
  // TagFormat, `v\d+\.\d+\.\d+`, and the two uses the program makes of its regexp
  // ---------------------------------------------------------------------------------------

  /**
   * The length of the match of TagFormat that starts at s[i], if there is one. A digit is
   * never a '.', so the leftmost-first match takes each greedy digit run whole.
   */
  function MatchAt(s: string, i: nat): (r: Option<nat>)
    requires i <= |s|
    ensures r.Some? ==> 6 <= r.value && i + r.value <= |s| && s[i] == 'v'
  {
    if i == |s| || s[i] != 'v' then None
    else
      var a := DigitRun(s, i + 1);
      if a == 0 || i + 1 + a == |s| || s[i + 1 + a] != '.' then None
      else
        var b := DigitRun(s, i + 2 + a);
        if b == 0 || i + 2 + a + b == |s| || s[i + 2 + a + b] != '.' then None
        else
          var c := DigitRun(s, i + 3 + a + b);
          if c == 0 then None
          else Some(3 + a + b + c)
  }

  /** After its 'v', a match of TagFormat holds only digits and dots. */
  lemma {:induction false} MatchChars(s: string, i: nat)
    requires i <= |s| && MatchAt(s, i).Some?
    ensures forall j :: i < j < i + MatchAt(s, i).value ==> IsDigit(s[j]) || s[j] == '.'
  {
    var a := DigitRun(s, i + 1);
    var b := DigitRun(s, i + 2 + a);
    DigitRunAll(s, i + 1);
    DigitRunAll(s, i + 2 + a);
    DigitRunAll(s, i + 3 + a + b);
  }

  /** TagRe.MatchString: TagFormat matches somewhere in `s` (the regexp is not anchored). */
  predicate MatchString(s: string)
    ensures MatchString(s) <==> FindFrom(s, 0).Some?
  {
    exists i :: 0 <= i < |s| && MatchAt(s, i).Some?
  }

  /** A text in which no 'v' is followed by a digit holds no match of TagFormat. */
  lemma {:induction false} NoDigitAfterV(s: string)
    requires forall i :: 0 <= i < |s| - 1 && s[i] == 'v' ==> !IsDigit(s[i + 1])
    ensures !MatchString(s)
  {
    forall i | 0 <= i < |s|
      ensures MatchAt(s, i).None?
    {
    }
  }

  /** Where the leftmost match at or after position `i` starts. */
  function FindFrom(s: string, i: nat): (r: Option<nat>)
    requires i <= |s|
    ensures r.Some? ==> i <= r.value < |s| && MatchAt(s, r.value).Some?
    ensures r.Some? ==> forall j :: i <= j < r.value ==> MatchAt(s, j).None?
    ensures r.None? ==> forall j :: i <= j < |s| ==> MatchAt(s, j).None?
    decreases |s| - i
  {
    if i == |s| then None
    else if MatchAt(s, i).Some? then Some(i)
    else FindFrom(s, i + 1)
  }

  /**
   * TagRe.FindString: the text of the leftmost match, or "" when there is none. The match is
   * tag-shaped, so it never holds a ','.
   */
  function FindString(s: string): (m: string)
    ensures m == "" <==> !MatchString(s)
    ensures m != "" ==> LeftmostMatch(s, m)
    ensures ',' !in m
  {
    match FindFrom(s, 0)
    case None => ""
    case Some(i) =>
      FoundAt(s, i);
      s[i..i + MatchAt(s, i).value]
  }

  /** The text at the position FindFrom finds is a non-empty, comma-free leftmost match. */
  lemma {:induction false} FoundAt(s: string, i: nat)
    requires FindFrom(s, 0) == Some(i)
    ensures var m := s[i..i + MatchAt(s, i).value];
      MatchString(s) && m != "" && LeftmostMatch(s, m) && ',' !in m
  {
    MatchedText(s, i);
    LeftmostAt(s, i);
  }

  /** What FindString returns is a piece of the text shaped like a tag. */
  lemma {:induction false} FindStringShape(s: string)
    ensures var m := FindString(s);
      m != "" ==>
        && Contains(s, m) && |m| >= 6 && m[0] == 'v'
        && (forall i :: 1 <= i < |m| ==> IsDigit(m[i]) || m[i] == '.')
  {
    var m := FindString(s);
    if m != "" {
      var i :| 0 <= i < |s| && NoMatchBefore(s, i) && MatchAt(s, i).Some? && m == s[i..i + MatchAt(s, i).value];
      MatchedText(s, i);
    }
  }

  /** No match of TagFormat starts before s[i]. */
  predicate NoMatchBefore(s: string, i: nat)
    requires i <= |s|
  {
    forall j :: 0 <= j < i ==> MatchAt(s, j).None?
  }

  /** `m` is the text of a match of TagFormat in `s` with no match starting before it. */
  predicate LeftmostMatch(s: string, m: string) {
    exists i {:trigger NoMatchBefore(s, i)} :: 0 <= i < |s| && NoMatchBefore(s, i)
      && MatchAt(s, i).Some? && m == s[i..i + MatchAt(s, i).value]
  }

  /** The match at a position with no match before it is the leftmost match. */
  lemma {:induction false} LeftmostAt(s: string, i: nat)
    requires i < |s| && MatchAt(s, i).Some?
    requires forall j :: 0 <= j < i ==> MatchAt(s, j).None?
    ensures LeftmostMatch(s, s[i..i + MatchAt(s, i).value])
  {
    assert NoMatchBefore(s, i);
  }

  /** 'v' followed by at least five digits and dots, and so without ','. */
  predicate TagShaped(m: string) {
    && |m| >= 6 && m[0] == 'v'
    && (forall j :: 1 <= j < |m| ==> IsDigit(m[j]) || m[j] == '.')
    && ',' !in m
  }

  /** The text of a match of TagFormat is a tag-shaped piece of `s`, and so holds no ','. */
  lemma {:induction false} MatchedText(s: string, i: nat)
    requires i <= |s| && MatchAt(s, i).Some?
    ensures Contains(s, s[i..i + MatchAt(s, i).value])
    ensures TagShaped(s[i..i + MatchAt(s, i).value])
  {
    var k := MatchAt(s, i).value;
    MatchChars(s, i);
    var m := s[i..i + k];
    forall j | 0 <= j < |m|
      ensures (j == 0 ==> m[j] == 'v') && (j > 0 ==> IsDigit(m[j]) || m[j] == '.') && m[j] != ','
    {
      assert m[j] == s[i + j];
    }
    SliceContained(s, i, i + k);
  }

  /** 'v' and three digit runs joined by '.' match TagFormat whole. */
  lemma {:induction false} MatchOf(x: string, y: string, z: string)
    requires x != [] && y != [] && z != []
    requires AllDigits(x) && AllDigits(y) && AllDigits(z)
    ensures MatchAt("v" + x + "." + y + "." + z, 0) == Some(3 + |x| + |y| + |z|)
  {
    var s := "v" + x + "." + y + "." + z;
    FirstRun(x, y, z);
    SecondRun(x, y, z);
    ThirdRun(x, y, z);
  }

  lemma {:induction false} FirstRun(x: string, y: string, z: string)
    requires AllDigits(x)
    ensures var s := "v" + x + "." + y + "." + z;
      s[0] == 'v' && DigitRun(s, 1) == |x| && s[1 + |x|] == '.'
  {
    var s := "v" + x + "." + y + "." + z;
    assert s == "v" + x + ("." + y + "." + z);
    DigitRunOf("v", x, "." + y + "." + z);
  }

  lemma {:induction false} SecondRun(x: string, y: string, z: string)
    requires AllDigits(y)
    ensures var s := "v" + x + "." + y + "." + z;
      DigitRun(s, 2 + |x|) == |y| && s[2 + |x| + |y|] == '.'
  {
    var s := "v" + x + "." + y + "." + z;
    assert s == ("v" + x + ".") + y + ("." + z);
    DigitRunOf("v" + x + ".", y, "." + z);
  }

  lemma {:induction false} ThirdRun(x: string, y: string, z: string)
    requires AllDigits(z)
    ensures DigitRun("v" + x + "." + y + "." + z, 3 + |x| + |y|) == |z|
  {
    DigitRunEnd("v" + x + "." + y + ".", z);
  }

  /** The text of a tag with no negative number matches TagFormat from its first character. */
  lemma {:induction false} MatchTagString(t: Tag)
    requires t.major >= 0 && t.minor >= 0 && t.detail >= 0
    ensures MatchAt(t.String(), 0).Some?
  {
    MatchOf(Itoa(t.major), Itoa(t.minor), Itoa(t.detail));
  }
}
