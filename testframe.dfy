/**
 * Package testframe: writing an empty test file next to a Go source file. The file system is
 * a map from path to contents: a path is there when os.Stat finds it, its contents are what
 * os.ReadFile returns, and os.WriteFile adds or replaces an entry.
 */
module TestFrame {
  import opened Wrappers
  import opened GoStrings

  datatype MakeError =
    | LooksLikeTest(src: string)
    | CannotStat(src: string)
    | TestExists(tst: string)
    | WrongPackageLine(line: string)
    | NoPackageName(src: string)

  /** The test file for `src`: a trailing ".go" removed if present, then "_test.go" added. */
  function TestName(src: string): (tst: string)
    ensures HasSuffix(tst, "_test.go")
    ensures HasSuffix(src, ".go") ==> tst == src[..|src| - 3] + "_test.go"
    ensures !HasSuffix(src, ".go") ==> tst == src + "_test.go"
  {
    var tst := TrimSuffix(src, ".go") + "_test.go";
    assert tst[|tst| - 8..] == "_test.go";
    tst
  }

  /** A source file is never its own test file. */
  lemma {:induction false} TestNameDiffers(src: string)
    ensures TestName(src) != src
  {
    var tst := TestName(src);
    if HasSuffix(src, ".go") {
      assert |tst| == |src| + 5;
    } else {
      assert |tst| == |src| + 8;
    }
  }

  /** What follows the package line in a new test file: an empty TestAll in package testing's style. */
  const FrameTail := "\nimport (\n\t\"testing\"\n)\n\nfunc TestAll(t *testing.T) {\n\t// TODO: Add tests\n}\n"

  /** The text written into a new test file for package `name`. */
  function Frame(name: string): string {
    "package " + name + "\n" + FrameTail
  }

  /** The index of the first line that starts with "package", or |lines| when none does. */
  function FirstPackageLine(lines: seq<string>): (k: nat)
    ensures k <= |lines|
    ensures forall j :: 0 <= j < k ==> !HasPrefix(lines[j], "package")
    ensures k < |lines| ==> HasPrefix(lines[k], "package")
  {
    if lines == [] then 0
    else if HasPrefix(lines[0], "package") then 0
    else 1 + FirstPackageLine(lines[1..])
  }

  /**
   * What the package-name scan in Make concludes from a file's contents: only the first line
   * starting with "package" is read; it must split on ' ' into exactly two words, and the
   * second, when not empty, is the name.
   */
  function PackageOf(content: string, src: string): (r: Result<string, MakeError>)
    ensures r.Ok? ==> r.value != "" && ' ' !in r.value && '\n' !in r.value
  {
    var lines := Split(content, '\n');
    var k := FirstPackageLine(lines);
    if k == |lines| then Err(NoPackageName(src))
    else
      var parts := Split(lines[k], ' ');
      if |parts| != 2 then Err(WrongPackageLine(lines[k]))
      else if parts[1] == "" then Err(NoPackageName(src))
      else
        assert '\n' !in parts[1] by {
          assert forall i :: 0 <= i < |parts[1]| ==> parts[1][i] in lines[k] by {
            assert Join(parts, ' ') == parts[0] + [' '] + parts[1];
            assert lines[k] == parts[0] + [' '] + parts[1];
          }
        }
        Ok(parts[1])
  }

  /** The package-name scan (testframe.go:43-56): a loop over the lines that stops at the first package line. */
  method PackageName(content: string, src: string) returns (r: Result<string, MakeError>)
    ensures r == PackageOf(content, src)
  {
    var lines := Split(content, '\n');
    var name := "";
    var i := 0;
    while i < |lines|
      invariant i <= |lines|
      invariant forall j :: 0 <= j < i ==> !HasPrefix(lines[j], "package")
      invariant name == ""
    {
      if HasPrefix(lines[i], "package") {
        var parts := Split(lines[i], ' ');
        if |parts| != 2 {
          return Err(WrongPackageLine(lines[i]));
        }
        name := parts[1];
        break;
      }
      i := i + 1;
    }
    assert i < |lines| ==> i == FirstPackageLine(lines);
    assert i == |lines| ==> FirstPackageLine(lines) == |lines|;
    if name == "" {
      return Err(NoPackageName(src));
    }
    r := Ok(name);
  }

  /**
   * What testframe.Make does, as a value: the first of its refusals that applies, or the files
   * with a test file for the source's package added.
   */
  function MakeOf(src: string, files: map<string, string>): (r: Result<map<string, string>, MakeError>)
    ensures r.Ok? ==> src in files && TestName(src) !in files && r.value.Keys == files.Keys + {TestName(src)}
    ensures r.Ok? ==> forall p :: p in files ==> r.value[p] == files[p]
    ensures r.Ok? ==> PackageOf(r.value[TestName(src)], src) == PackageOf(files[src], src)
  {
    if HasSuffix(src, "_test.go") then Err(LooksLikeTest(src))
    else if src !in files then Err(CannotStat(src))
    else if TestName(src) in files then Err(TestExists(TestName(src)))
    else
      match PackageOf(files[src], src)
      case Err(e) => Err(e)
      case Ok(name) =>
        FramePackage(name, src);
        Ok(files[TestName(src) := Frame(name)])
  }

  /**
   * testframe.Make: refuses a test file as source, a missing source and an existing test
   * file; otherwise reads the package name and adds a test file for it, touching no other file.
   */
  method Make(src: string, files: map<string, string>) returns (r: Result<map<string, string>, MakeError>)
    ensures HasSuffix(src, "_test.go") ==> r == Err(LooksLikeTest(src))
    ensures !HasSuffix(src, "_test.go") && src !in files ==> r == Err(CannotStat(src))
    ensures !HasSuffix(src, "_test.go") && src in files && TestName(src) in files ==>
      r == Err(TestExists(TestName(src)))
    ensures r.Ok? <==>
      !HasSuffix(src, "_test.go") && src in files && TestName(src) !in files &&
      PackageOf(files[src], src).Ok?
    ensures r.Ok? ==> r.value == files[TestName(src) := Frame(PackageOf(files[src], src).value)]
    ensures r == MakeOf(src, files)
  {
    if HasSuffix(src, "_test.go") {
      return Err(LooksLikeTest(src));
    }
    if src !in files {
      return Err(CannotStat(src));
    }
    var tst := TestName(src);
    if tst in files {
      return Err(TestExists(tst));
    }
    var content := files[src];
    var name := PackageName(content, src);
    if name.Err? {
      return Err(name.error);
    }
    r := Ok(files[tst := Frame(name.value)]);
  }

  /** Two words with one space between them split back into the two words. */
  lemma {:induction false} TwoWords(a: string, b: string)
    requires ' ' !in a && ' ' !in b
    ensures Split(a + " " + b, ' ') == [a, b]
  {
    SplitCons(a, b, ' ');
    SplitNoSep(b, ' ');
  }

  /** The first line of `first + rest`, when `rest` is empty or starts a new line. */
  lemma {:induction false} FirstLine(first: string, rest: string)
    requires '\n' !in first
    requires rest == [] || rest[0] == '\n'
    ensures Split(first + rest, '\n')[0] == first
  {
    if rest == [] {
      assert first + rest == first;
      SplitNoSep(first, '\n');
    } else {
      assert first + rest == first + ['\n'] + rest[1..];
      SplitCons(first, rest[1..], '\n');
    }
  }

  /** "package " and a one-word name holds no newline and starts with "package". */
  lemma {:induction false} PackageLineShape(name: string)
    requires ' ' !in name && '\n' !in name
    ensures '\n' !in "package " + name
    ensures HasPrefix("package " + name, "package")
  {
    var first := "package " + name;
    assert forall i :: 8 <= i < |first| ==> first[i] == name[i - 8];
    assert first[..7] == "package";
  }

  /**
   * A text whose first line is "package" and a one-word name names that package, whatever
   * the following lines hold.
   */
  lemma {:induction false} PackageLine(name: string, rest: string, src: string)
    requires name != "" && ' ' !in name && '\n' !in name
    requires rest == [] || rest[0] == '\n'
    ensures PackageOf("package " + name + rest, src) == Ok(name)
  {
    var first := "package " + name;
    PackageLineShape(name);
    FirstLine(first, rest);
    TwoWords("package", name);
    var lines := Split(first + rest, '\n');
    assert FirstPackageLine(lines) == 0;
    assert first == "package" + " " + name;
    assert Split(lines[0], ' ') == ["package", name];
  }

  /** The test file Make writes declares the package it was read from. */
  lemma {:induction false} FramePackage(name: string, src: string)
    requires name != "" && ' ' !in name && '\n' !in name
    ensures PackageOf(Frame(name), src) == Ok(name)
  {
    var rest := "\n" + FrameTail;
    assert Frame(name) == "package " + name + rest;
    PackageLine(name, rest, src);
  }

  /** TestPackageName's first case: "package foo" names package foo. */
  lemma PackageNameFoo()
    ensures PackageOf("package foo", "src.go") == Ok("foo")
  {
    assert "package foo" == "package " + "foo" + "";
    PackageLine("foo", "", "src.go");
  }

  /** Three words with single spaces between them split into three pieces. */
  lemma {:induction false} ThreeWords(a: string, b: string, c: string)
    requires ' ' !in a && ' ' !in b && ' ' !in c
    ensures |Split(a + " " + b + " " + c, ' ')| == 3
  {
    JoinThree(a, b, c, ' ');
    SplitJoin([a, b, c], ' ');
  }

  /** A one-line text whose package line does not split into two words is refused. */
  lemma {:induction false} WrongSingleLine(line: string, src: string)
    requires '\n' !in line && HasPrefix(line, "package") && |Split(line, ' ')| != 2
    ensures PackageOf(line, src) == Err(WrongPackageLine(line))
  {
    SplitNoSep(line, '\n');
    assert FirstPackageLine([line]) == 0;
  }

  lemma ThreeWordLine()
    ensures '\n' !in "package foo bar" && HasPrefix("package foo bar", "package")
  {
    assert "package foo bar"[..7] == "package";
  }

  lemma ThreeWordSplit()
    ensures |Split("package foo bar", ' ')| == 3
  {
    assert "package foo bar" == "package" + " " + "foo" + " " + "bar";
    ThreeWords("package", "foo", "bar");
  }

  /** TestPackageName's second case: a package line of three words is refused. */
  lemma PackageNameThreeWords()
    ensures PackageOf("package foo bar", "src.go") == Err(WrongPackageLine("package foo bar"))
  {
    ThreeWordLine();
    ThreeWordSplit();
    WrongSingleLine("package foo bar", "src.go");
  }

  /** A one-line text that is not a package line names no package. */
  lemma {:induction false} NoPackageLine(line: string, src: string)
    requires '\n' !in line && !HasPrefix(line, "package")
    ensures PackageOf(line, src) == Err(NoPackageName(src))
  {
    SplitNoSep(line, '\n');
    assert FirstPackageLine([line]) == 1;
  }

  /** TestPackageName's third case: without a package line there is no name. */
  lemma PackageNameMissing()
    ensures PackageOf("foo bar", "src.go") == Err(NoPackageName("src.go"))
  {
    assert "foo bar"[0] != "package"[0];
    NoPackageLine("foo bar", "src.go");
  }
}
