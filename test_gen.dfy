// The test generator's deterministic parts: choosing the functions that get
// generated tests, cutting a function's source text out of its file,
// counting the tests in a generated suite, cleaning the generated code and
// laying the suites out in the test file. The request to the language
// model that writes the tests is not part of this model: its reply is an
// input here.

module AiTestGen {
  import opened Common
  import opened Complexity
  import opened Thresholds

  // ---------------------------------------------------------------------
  // Choosing the functions

  /** The functions that get generated tests (`--min-complexity` is 3 when
      it is not given). */
  function TargetFunctions(functions: seq<FunctionComplexity>, minComplexity: nat): (r: seq<FunctionComplexity>)
    ensures forall fc :: fc in r <==> fc in functions && fc.cyclomaticComplexity >= minComplexity
  {
    AtOrAbove(functions, minComplexity)
  }

  /** The targets keep the order in which the functions were reported: one
      more function is one more target exactly when it reaches the
      threshold. */
  lemma TargetFunctionsInOrder(functions: seq<FunctionComplexity>, fc: FunctionComplexity, minComplexity: nat)
    ensures TargetFunctions([], minComplexity) == []
    ensures TargetFunctions(functions + [fc], minComplexity) ==
      TargetFunctions(functions, minComplexity) + (if fc.cyclomaticComplexity >= minComplexity then [fc] else [])
  {
    FilterSnoc(functions, fc, AtLeast(minComplexity));
  }

  // ---------------------------------------------------------------------
  // Lines, as Rust's `str::lines` gives them

  function DropCarriageReturn(l: string): (r: string)
    ensures r == l || r + "\r" == l
  {
    if l != [] && l[|l| - 1] == '\r' then l[..|l| - 1] else l
  }

  /** The lines of a text, as Rust's `str::lines` gives them: split at
      newlines, without an empty last line after a final newline, and with
      a carriage return removed only where a newline follows it. */
  function RustLines(s: string): (r: seq<string>)
    ensures s == [] ==> r == []
    ensures forall k :: 0 <= k < |r| ==> '\n' !in r[k]
  {
    LinesOf(Split(s, '\n'))
  }

  /** The lines made of the pieces between newlines: every piece but the
      last had a newline after it, and the last is a line only when it is
      not empty. */
  function LinesOf(pieces: seq<string>): (r: seq<string>)
    requires pieces != []
    requires forall k :: 0 <= k < |pieces| ==> '\n' !in pieces[k]
    ensures |pieces| >= 2 ==> r != []
    ensures forall k :: 0 <= k < |r| ==> '\n' !in r[k]
    decreases |pieces|
  {
    if |pieces| == 1 then (if pieces[0] == "" then [] else pieces)
    else
      var first := DropCarriageReturn(pieces[0]);
      assert '\n' !in first by {
        if first != pieces[0] { assert first == pieces[0][..|pieces[0]| - 1]; }
      }
      [first] + LinesOf(pieces[1..])
  }

  /** A text without newlines is a single line, kept whole even when it
      ends in a carriage return. */
  lemma OneLine(s: string)
    requires s != [] && '\n' !in s
    ensures RustLines(s) == [s]
  {
    SplitNoSep(s, '\n');
    assert s[|s| - 1] != '\n';
  }

  /** A line ended by a newline loses a carriage return before it, and the
      lines after it are the lines of the rest of the text. */
  lemma LinesCons(a: string, b: string)
    requires '\n' !in a
    ensures RustLines(a + "\n" + b) == [DropCarriageReturn(a)] + RustLines(b)
  {
    SplitConcat(a, b, '\n');
    assert a + "\n" + b == a + ['\n'] + b;
    assert ([a] + Split(b, '\n'))[1..] == Split(b, '\n');
  }

  /** Without carriage returns, the lines joined with newlines give the
      text back, less its final newline. */
  lemma {:induction false} LinesJoin(s: string)
    requires '\r' !in s
    ensures Join(RustLines(s), "\n") + (if s != [] && s[|s| - 1] == '\n' then "\n" else "") == s
    decreases |s|
  {
    if s == [] {
    } else if '\n' !in s {
      OneLine(s);
    } else {
      var i := FirstOccurrence(s, '\n');
      var a, b := s[..i], s[i + 1..];
      assert s == a + "\n" + b;
      LinesCons(a, b);
      assert DropCarriageReturn(a) == a by {
        if a != [] { assert a[|a| - 1] in s; }
      }
      LinesJoin(b);
      var rest := RustLines(b);
      assert RustLines(s) == [a] + rest;
      if b == [] {
        assert Join([a], "\n") == a;
        assert s[|s| - 1] == '\n';
      } else {
        if '\n' in b {
          CountCharIn(b, '\n');
        } else {
          OneLine(b);
        }
        assert rest != [];
        assert ([a] + rest)[1..] == rest;
        var tail := if b[|b| - 1] == '\n' then "\n" else "";
        assert Join(rest, "\n") + tail == b;
        assert Join([a] + rest, "\n") == a + "\n" + Join(rest, "\n");
        assert s[|s| - 1] == b[|b| - 1];
        calc {
          Join(RustLines(s), "\n") + tail;
          (a + "\n" + Join(rest, "\n")) + tail;
          { AppendAssoc(a + "\n", Join(rest, "\n"), tail); }
          a + "\n" + (Join(rest, "\n") + tail);
          s;
        }
      }
    }
  }

  // ---------------------------------------------------------------------
  // Cutting a function out of its file

  /** The brace counter and whether a `{` has been seen yet. */
  datatype Braces = Braces(depth: int, open: bool)

  /** Scanning the characters of a line: `None` once a `}` brings the count
      back to 0 after a `{`, else the state at the end of the line. */
  function ScanChars(line: string, b: Braces): Option<Braces>
    decreases |line|
  {
    if line == [] then Some(b)
    else if line[0] == '{' then ScanChars(line[1..], Braces(b.depth + 1, true))
    else if line[0] == '}' then
      if b.open && b.depth - 1 == 0 then None
      else ScanChars(line[1..], Braces(b.depth - 1, b.open))
    else ScanChars(line[1..], b)
  }

  /** The index of the line, from `j` on, on which the braces close. */
  function ClosingLine(lines: seq<string>, j: nat, b: Braces): (r: Option<nat>)
    ensures r.Some? ==> j <= r.value < |lines|
    decreases |lines| - j
  {
    if j >= |lines| then None
    else match ScanChars(lines[j], b)
      case None => Some(j)
      case Some(next) => ClosingLine(lines, j + 1, next)
  }

  function Declaration(name: string): string { "fn " + name }

  /** The first line from `from` on that mentions `fn <name>`. */
  function FirstDeclaring(lines: seq<string>, name: string, from: nat): (r: Option<nat>)
    ensures r.Some? ==> from <= r.value < |lines| && Contains(lines[r.value], Declaration(name))
    ensures r.Some? ==> forall k :: from <= k < r.value ==> !Contains(lines[k], Declaration(name))
    ensures r.None? ==> forall k :: from <= k < |lines| ==> !Contains(lines[k], Declaration(name))
    decreases |lines| - from
  {
    if from >= |lines| then None
    else if Contains(lines[from], Declaration(name)) then Some(from)
    else FirstDeclaring(lines, name, from + 1)
  }

  datatype ExtractError = CouldNotExtract(name: string)

  /** The function's text: the lines from the first one mentioning
      `fn <name>` to the one on which its braces close. */
  function Extracted(source: string, name: string): Result<string, ExtractError> {
    var lines := RustLines(source);
    match FirstDeclaring(lines, name, 0)
    case None => Err(CouldNotExtract(name))
    case Some(i) =>
      match ClosingLine(lines, i, Braces(0, false))
      case None => Err(CouldNotExtract(name))
      case Some(j) => Ok(Join(lines[i..j + 1], "\n"))
  }

  method ExtractFunctionCode(source: string, name: string) returns (r: Result<string, ExtractError>)
    ensures r == Extracted(source, name)
  {
    var lines := RustLines(source);
    var i := 0;
    while i < |lines|
      invariant i <= |lines|
      invariant FirstDeclaring(lines, name, 0) == FirstDeclaring(lines, name, i)
    {
      var line := lines[i];
      if Contains(line, "fn " + name) || Contains(line, "pub fn " + name) ||
         Contains(line, "async fn " + name) {
        QualifiedDeclarations(line, name);
        var taken := TakeFunction(lines, i);
        match taken
        case Some(j) =>
          r := Ok(Join(lines[i..j + 1], "\n"));
          return;
        case None =>
          break;
      }
      i := i + 1;
    }
    r := Err(CouldNotExtract(name));
  }

  /** The walk over the lines from the declaration on, carrying the brace
      count from line to line. */
  method TakeFunction(lines: seq<string>, i: nat) returns (closed: Option<nat>)
    requires i < |lines|
    ensures closed == ClosingLine(lines, i, Braces(0, false))
  {
    var braceCount, inFunction := 0, false;
    var functionLines: seq<string> := [];
    for j := i to |lines|
      invariant functionLines == lines[i..j]
      invariant ClosingLine(lines, i, Braces(0, false)) ==
        ClosingLine(lines, j, Braces(braceCount, inFunction))
    {
      functionLines := functionLines + [lines[j]];
      var done;
      done, braceCount, inFunction := ScanLine(lines[j], braceCount, inFunction);
      if done {
        return Some(j);
      }
    }
    closed := None;
  }

  /** The walk over one line's characters. */
  method ScanLine(line: string, depth: int, open: bool) returns (closed: bool, depth': int, open': bool)
    ensures closed <==> ScanChars(line, Braces(depth, open)).None?
    ensures !closed ==> ScanChars(line, Braces(depth, open)) == Some(Braces(depth', open'))
  {
    depth', open' := depth, open;
    for k := 0 to |line|
      invariant ScanChars(line, Braces(depth, open)) == ScanChars(line[k..], Braces(depth', open'))
    {
      assert line[k..][1..] == line[k + 1..];
      match line[k]
      case '{' =>
        depth' := depth' + 1;
        open' := true;
      case '}' =>
        depth' := depth' - 1;
        if open' && depth' == 0 {
          return true, depth', open';
        }
      case _ =>
    }
    closed := false;
  }

  /** `pub fn <name>` and `async fn <name>` both contain `fn <name>`, so the
      three tests of a line come down to the first. */
  lemma QualifiedDeclarations(line: string, name: string)
    ensures Contains(line, "pub fn " + name) ==> Contains(line, Declaration(name))
    ensures Contains(line, "async fn " + name) ==> Contains(line, Declaration(name))
    ensures Contains(line, "fn " + name) ==> Contains(line, Declaration(name))
  {
    if Contains(line, "pub fn " + name) {
      var i :| 0 <= i <= |line| && OccursAt(line, "pub fn " + name, i);
      assert ("pub fn " + name)[4..] == Declaration(name);
      OccursWithin(line, "pub fn " + name, Declaration(name), i, 4);
    }
    if Contains(line, "async fn " + name) {
      var i :| 0 <= i <= |line| && OccursAt(line, "async fn " + name, i);
      assert ("async fn " + name)[6..] == Declaration(name);
      OccursWithin(line, "async fn " + name, Declaration(name), i, 6);
    }
  }

  /** A line declaring any function whose name merely begins with `name`
      is taken for a declaration of `name`. */
  lemma LongerNameMatches(name: string, suffix: string, rest: string)
    ensures Contains(Declaration(name + suffix) + rest, Declaration(name))
  {
    var line := Declaration(name + suffix) + rest;
    assert line[..|Declaration(name)|] == Declaration(name);
    assert OccursAt(line, Declaration(name), 0);
  }

  /** What is cut out names the function: it contains `fn <name>`. */
  lemma ExtractedNamesFunction(source: string, name: string)
    requires Extracted(source, name).Ok?
    ensures Contains(Extracted(source, name).value, Declaration(name))
  {
    var lines := RustLines(source);
    var i := FirstDeclaring(lines, name, 0).value;
    var j := ClosingLine(lines, i, Braces(0, false)).value;
    var taken := lines[i..j + 1];
    JoinPartOccurs(taken, "\n", 0);
    var k :| 0 <= k <= |Join(taken, "\n")| && OccursAt(Join(taken, "\n"), taken[0], k);
    var m :| 0 <= m <= |taken[0]| && OccursAt(taken[0], Declaration(name), m);
    OccursWithin(Join(taken, "\n"), taken[0], Declaration(name), k, m);
  }

  predicate BraceFree(s: string) {
    '{' !in s && '}' !in s
  }

  lemma {:induction false} ScanBraceFree(s: string, t: string, b: Braces)
    requires BraceFree(s)
    ensures ScanChars(s + t, b) == ScanChars(t, b)
    decreases |s|
  {
    if s != [] {
      assert (s + t)[0] == s[0] && (s + t)[1..] == s[1..] + t;
      assert s[0] != '{' && s[0] != '}';
      assert ScanChars(s + t, b) == ScanChars(s[1..] + t, b);
      ScanBraceFree(s[1..], t, b);
    } else {
      assert s + t == t;
    }
  }

  /** A function written on one line, `fn <name>() {<body>}` with no braces
      in the name or the body, is cut out as that whole line. */
  lemma OneLineFunction(name: string, body: string)
    requires BraceFree(name) && BraceFree(body) && '\n' !in name && '\n' !in body
    ensures Extracted(Declaration(name) + "() {" + body + "}", name) ==
      Ok(Declaration(name) + "() {" + body + "}")
  {
    var line := Declaration(name) + "() {" + body + "}";
    assert line[|line| - 1] == '}';
    OneLine(line);
    assert OccursAt(line, Declaration(name), 0) by {
      assert line[..|Declaration(name)|] == Declaration(name);
    }
    var head := Declaration(name) + "() ";
    assert BraceFree(head);
    assert line == head + ("{" + (body + "}"));
    ScanBraceFree(head, "{" + (body + "}"), Braces(0, false));
    assert ("{" + (body + "}"))[1..] == body + "}";
    ScanBraceFree(body, "}", Braces(1, true));
    assert ScanChars(line, Braces(0, false)) == None;
    assert [line][0..1] == [line];
  }

  // ---------------------------------------------------------------------
  // Counting tests

  /** Rust's `s.matches(p).count()`: non-overlapping occurrences, found
      left to right. */
  function Matches(s: string, p: string): nat
    requires p != []
    decreases |s|
  {
    if |s| < |p| then 0
    else if StartsWith(s, p) then 1 + Matches(s[|p|..], p)
    else Matches(s[1..], p)
  }

  function TestCount(code: string): nat {
    Matches(code, "#[test]")
  }

  /** No match is counted exactly when the pattern does not occur. */
  lemma {:induction false} MatchesZero(s: string, p: string)
    requires p != []
    ensures Matches(s, p) == 0 <==> !Contains(s, p)
    decreases |s|
  {
    if |s| < |p| {
      assert forall i :: 0 <= i <= |s| ==> !OccursAt(s, p, i);
    } else if StartsWith(s, p) {
      assert OccursAt(s, p, 0);
    } else {
      MatchesZero(s[1..], p);
      ContainsInTail(s, p);
    }
  }

  /** When `p` does not start `s`, it occurs in `s` exactly when it occurs
      in the tail of `s`. */
  lemma ContainsInTail(s: string, p: string)
    requires s != [] && !StartsWith(s, p)
    ensures Contains(s, p) <==> Contains(s[1..], p)
  {
    if Contains(s, p) {
      var i :| 0 <= i <= |s| && OccursAt(s, p, i);
      assert i > 0;
      assert s[1..][i - 1..i - 1 + |p|] == s[i..i + |p|];
      assert OccursAt(s[1..], p, i - 1);
    }
    if Contains(s[1..], p) {
      var i :| 0 <= i <= |s[1..]| && OccursAt(s[1..], p, i);
      OccursAfter([s[0]], s[1..], p, i);
      assert [s[0]] + s[1..] == s;
    }
  }

  /** A suite counts no tests exactly when it has no `#[test]`. */
  lemma NoTestsExactly(code: string)
    ensures TestCount(code) == 0 <==> !Contains(code, "#[test]")
  {
    MatchesZero(code, "#[test]");
  }

  // ---------------------------------------------------------------------
  // Cleaning the generated code

  /** Rust's `s.replace(p, "")`: every non-overlapping occurrence, found
      left to right, deleted. */
  function RemoveAll(s: string, p: string): string
    requires p != []
    decreases |s|
  {
    if s == [] then []
    else if StartsWith(s, p) then RemoveAll(s[|p|..], p)
    else [s[0]] + RemoveAll(s[1..], p)
  }

  /** Code fences deleted, whitespace trimmed, one newline added unless
      the text already ends with one. */
  function CleanGeneratedCode(code: string): string {
    var cleaned := RustTrim(RemoveAll(RemoveAll(code, Tag), Fence));
    if EndsWith(cleaned, "\n") then cleaned else cleaned + "\n"
  }

  /** The trimmed text cannot end with a newline, so exactly one is always
      added: the result ends with a newline that follows no whitespace. */
  lemma CleanEndsWithOneNewline(code: string)
    ensures var r := CleanGeneratedCode(code);
      r != [] && r[|r| - 1] == '\n' && (|r| == 1 || !RustIsSpace(r[|r| - 2]))
    ensures var r := CleanGeneratedCode(code);
      r == RustTrim(RemoveAll(RemoveAll(code, Tag), Fence)) + "\n"
  {
  }

  /** Text free of the pattern's first character passes through. */
  lemma {:induction false} RemoveAllAbsent(s: string, t: string, p: string)
    requires p != [] && p[0] !in s
    ensures RemoveAll(s + t, p) == s + RemoveAll(t, p)
    decreases |s|
  {
    if s != [] {
      assert (s + t)[0] == s[0] && (s + t)[1..] == s[1..] + t;
      assert !StartsWith(s + t, p) by {
        if |p| <= |s + t| {
          assert (s + t)[..|p|][0] == s[0] != p[0];
        }
      }
      RemoveAllAbsent(s[1..], t, p);
      assert [s[0]] + (s[1..] + RemoveAll(t, p)) == s + RemoveAll(t, p);
    } else {
      assert s + t == t && s + RemoveAll(t, p) == RemoveAll(t, p);
    }
  }

  /** Code without backquotes is only trimmed. */
  lemma CleanPlain(code: string)
    requires '`' !in code
    ensures CleanGeneratedCode(code) == RustTrim(code) + "\n"
  {
    RemoveAllAbsent(code, [], Tag);
    RemoveAllAbsent(code, [], Fence);
    assert code + [] == code;
  }

  /** A fenced reply is reduced to its trimmed body. */
  lemma CleanFenced(body: string)
    requires '`' !in body
    ensures CleanGeneratedCode(Tag + body + Fence) == RustTrim(body) + "\n"
  {
    TagRemoved(body);
    FenceRemoved(body);
  }

  const Fence: string := "```"

  const Tag: string := "```rust"

  lemma TagRemoved(body: string)
    requires '`' !in body
    ensures RemoveAll(Tag + body + Fence, Tag) == body + Fence
  {
    var code := Tag + body + Fence;
    assert code[..|Tag|] == Tag && code[|Tag|..] == body + Fence;
    RemoveAllAbsent(body, Fence, Tag);
    assert RemoveAll(Fence, Tag) == Fence by {
      assert Fence[1..] == "``" && Fence[1..][1..] == "`" && Fence[1..][1..][1..] == [];
    }
  }

  lemma FenceRemoved(body: string)
    requires '`' !in body
    ensures RemoveAll(body + Fence, Fence) == body
  {
    RemoveAllAbsent(body, Fence, Fence);
    assert Fence[|Fence|..] == [];
    assert body + [] == body;
  }

  // ---------------------------------------------------------------------
  // The test file

  datatype Suite = Suite(functionName: string, testCode: string, testCount: nat)

  /** A suite for the model's reply, counting its tests. */
  function SuiteOf(functionName: string, reply: string): (s: Suite)
    ensures s.testCount == 0 <==> !Contains(reply, "#[test]")
  {
    NoTestsExactly(reply);
    Suite(functionName, reply, TestCount(reply))
  }

  const BannerRule: string := "// ========================================\n"

  function Banner(s: Suite): string {
    BannerRule + "// Tests for function: " + s.functionName + " (" + NatToString(s.testCount) +
    " test functions)\n" + BannerRule + "\n"
  }

  /** A suite's part of the file: its banner, then its cleaned code. */
  function Section(s: Suite): string {
    Banner(s) + CleanGeneratedCode(s.testCode)
  }

  function Sections(suites: seq<Suite>): (r: seq<string>)
    ensures |r| == |suites|
  {
    seq(|suites|, i requires 0 <= i < |suites| => Section(suites[i]))
  }

  /** The blank line between two sections. */
  const Gap: string := "\n\n"

  /** The file: the header, then each suite's section, with a blank line
      between sections and none after the last. The header, which holds
      the source path and the time of generation, is given. */
  method TestFileContent(header: string, suites: seq<Suite>) returns (content: string)
    ensures content == header + Join(Sections(suites), Gap)
  {
    ghost var parts := Sections(suites);
    content := header;
    for index := 0 to |suites|
      invariant content == header + Written(parts, index)
    {
      content := AppendSection(content, header, suites, index);
    }
    assert parts[..|parts|] == parts;
  }

  /** One suite's section, then a blank line unless it is the last. */
  method AppendSection(written: string, header: string, suites: seq<Suite>, index: nat)
    returns (content: string)
    requires index < |suites| && written == header + Written(Sections(suites), index)
    ensures content == header + Written(Sections(suites), index + 1)
  {
    ghost var parts := Sections(suites);
    var section := Section(suites[index]);
    assert section == parts[index];
    WrittenStep(header, parts, index);
    content := written + section;
    if index < |suites| - 1 {
      content := content + Gap;
    }
  }

  /** What the loop has written after `k` sections. */
  ghost function Written(parts: seq<string>, k: nat): string
    requires k <= |parts|
  {
    if k == 0 then []
    else Join(parts[..k], Gap) + (if k < |parts| then Gap else [])
  }

  lemma WrittenStep(header: string, parts: seq<string>, k: nat)
    requires k < |parts|
    ensures header + Written(parts, k + 1) ==
      header + Written(parts, k) + parts[k] + (if k < |parts| - 1 then Gap else [])
  {
    var before, tail := parts[..k], if k < |parts| - 1 then Gap else [];
    assert parts[..k + 1] == before + [parts[k]];
    if k > 0 {
      JoinSnoc(before, parts[k], Gap);
      AppendAssoc(Join(before, Gap) + Gap, parts[k], tail);
      AppendAssoc(Join(before, Gap), Gap, parts[k] + tail);
    } else {
      assert before + [parts[k]] == [parts[k]];
      assert Written(parts, k + 1) == parts[k] + tail;
    }
    AppendAssoc(header, Written(parts, k), parts[k]);
    AppendAssoc(header + Written(parts, k), parts[k], tail);
  }

  lemma {:induction false} JoinSnoc(parts: seq<string>, x: string, sep: string)
    requires parts != []
    ensures Join(parts + [x], sep) == Join(parts, sep) + sep + x
    decreases |parts|
  {
    if |parts| == 1 {
      assert parts + [x] == [parts[0], x];
      assert [parts[0], x][1..] == [x];
    } else {
      assert (parts + [x])[1..] == parts[1..] + [x];
      JoinSnoc(parts[1..], x, sep);
    }
  }

  /** The file ends with the last suite's cleaned code (`k` is the last
      index), with no separator after it. */
  lemma TestFileEnding(header: string, suites: seq<Suite>, k: nat)
    requires k == |suites| - 1
    ensures EndsWith(header + Join(Sections(suites), Gap), CleanGeneratedCode(suites[k].testCode))
  {
    SectionsEnding(suites, k);
    JoinEndsWith(header, Sections(suites), Gap, k, CleanGeneratedCode(suites[k].testCode));
  }

  lemma SectionsEnding(suites: seq<Suite>, k: nat)
    requires k < |suites|
    ensures EndsWith(Sections(suites)[k], CleanGeneratedCode(suites[k].testCode))
  {
    SectionEnding(suites[k]);
  }

  lemma SectionEnding(s: Suite)
    ensures EndsWith(Section(s), CleanGeneratedCode(s.testCode))
  {
    var banner, clean := Banner(s), CleanGeneratedCode(s.testCode);
    assert (banner + clean)[|banner + clean| - |clean|..] == clean;
  }

  /** Every suite's section appears in the file. */
  lemma TestFileHoldsSuite(header: string, suites: seq<Suite>, i: nat)
    requires i < |suites|
    ensures Contains(header + Join(Sections(suites), Gap), Section(suites[i]))
  {
    var parts := Sections(suites);
    JoinPartOccurs(parts, Gap, i);
    var k :| 0 <= k <= |Join(parts, Gap)| && OccursAt(Join(parts, Gap), parts[i], k);
    OccursAfter(header, Join(parts, Gap), parts[i], k);
  }

  lemma JoinEndsWith(header: string, parts: seq<string>, sep: string, k: nat, tail: string)
    requires k == |parts| - 1 && EndsWith(parts[k], tail)
    ensures EndsWith(header + Join(parts, sep), tail)
  {
    JoinEndsWithLast(header, parts, sep);
    EndsWithTrans(header + Join(parts, sep), parts[|parts| - 1], tail);
  }

  lemma JoinEndsWithLast(header: string, parts: seq<string>, sep: string)
    requires parts != []
    ensures EndsWith(header + Join(parts, sep), parts[|parts| - 1])
  {
    var last := parts[|parts| - 1];
    var tail: string;
    if |parts| == 1 {
      assert Join(parts, sep) == last;
      tail := header;
    } else {
      assert parts == parts[..|parts| - 1] + [last];
      JoinSnoc(parts[..|parts| - 1], last, sep);
      tail := header + (Join(parts[..|parts| - 1], sep) + sep);
    }
    assert header + Join(parts, sep) == tail + last;
    assert (tail + last)[|tail + last| - |last|..] == last;
  }

  lemma EndsWithTrans(a: string, b: string, c: string)
    requires EndsWith(a, b) && EndsWith(b, c)
    ensures EndsWith(a, c)
  {
    assert a[|a| - |c|..] == a[|a| - |b|..][|b| - |c|..];
  }
}
