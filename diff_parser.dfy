// The unified-diff parser: splits a diff into per-file line changes,
// pairs adjacent deletions and additions into modifications, and collects
// the identifiers mentioned on changed lines.

module DiffParser {
  import opened Common

  datatype ChangeType = Addition | Deletion | Modification | Context

  datatype DiffChange = DiffChange(lineNumber: nat, kind: ChangeType,
                                   oldLine: Option<string>, newLine: Option<string>)

  datatype FileChange = FileChange(filename: string, oldFilename: string,
                                   newFilename: string, changes: seq<DiffChange>)

  datatype ParseError =
    | MissingNewFileHeader   // a `--- a/` line not followed by a `+++ b/` line
    | NoValidFileChanges     // non-blank input without any `--- a/` line

  // ---------------------------------------------------------------------
  // Line recognisers (the three anchored patterns of the parser)

  /** `^--- a/(.+)$`: the file name after the prefix, which is never empty. */
  function FileHeader(line: string): (r: Option<string>)
    ensures r.Some? <==> StartsWith(line, "--- a/") && |line| > 6
    ensures r.Some? ==> r.value != [] && line == "--- a/" + r.value
  {
    if StartsWith(line, "--- a/") && |line| > 6 then Some(line[6..]) else None
  }

  /** `^\+\+\+ b/(.+)$` */
  predicate IsNewFileHeader(line: string) {
    StartsWith(line, "+++ b/") && |line| > 6
  }

  /** Length of the run of decimal digits at the start of `s`. */
  function DigitRun(s: string): (n: nat)
    ensures n <= |s|
    ensures forall k :: 0 <= k < n ==> IsDigit(s[k])
    ensures n == |s| || !IsDigit(s[n])
  {
    if s == [] || !IsDigit(s[0]) then 0 else 1 + DigitRun(s[1..])
  }

  /** Skips the optional `,<digits>` line count of a hunk range. */
  function SkipCount(s: string): (r: string)
    ensures |r| <= |s| && r == s[|s| - |r|..]
  {
    if s != [] && s[0] == ',' then s[1 + DigitRun(s[1..])..] else s
  }

  /** `(\d+),?\d*`: a range's start line and the text after the range.
      The `\d+` group takes the whole digit run: a shorter run would leave
      a digit where the pattern next needs `,` or a space. */
  function ParseRange(s: string): (r: Option<(nat, string)>)
    ensures r.Some? ==> |r.value.1| < |s| && r.value.1 == s[|s| - |r.value.1|..]
  {
    var n := DigitRun(s);
    if n == 0 then None else Some((DigitsValue(s[..n]), SkipCount(s[n..])))
  }

  /** `^@@ -(\d+),?\d* \+(\d+),?\d* @@`: the old and new start lines. */
  function HunkHeader(line: string): (r: Option<(nat, nat)>)
  {
    if !StartsWith(line, "@@ -") then None
    else
      match ParseRange(line[4..])
      case None => None
      case Some((oldStart, afterOld)) =>
        if !StartsWith(afterOld, " +") then None
        else
          match ParseRange(afterOld[2..])
          case None => None
          case Some((newStart, afterNew)) =>
            if !StartsWith(afterNew, " @@") then None else Some((oldStart, newStart))
  }

  lemma {:induction false} DigitRunOf(digits: string, rest: string)
    requires forall k :: 0 <= k < |digits| ==> IsDigit(digits[k])
    requires rest == [] || !IsDigit(rest[0])
    ensures DigitRun(digits + rest) == |digits|
  {
    if digits != [] {
      assert (digits + rest)[1..] == digits[1..] + rest;
      DigitRunOf(digits[1..], rest);
    }
  }

  lemma {:induction false} SkipCountOf(count: string, rest: string)
    requires forall k :: 0 <= k < |count| ==> IsDigit(count[k])
    requires rest == [] || !IsDigit(rest[0])
    ensures SkipCount("," + count + rest) == rest
  {
    var t := "," + count + rest;
    assert t[1..] == count + rest;
    DigitRunOf(count, rest);
    assert t[1 + |count|..] == rest;
  }

  /** Range text as git writes it: `start` or `start,count`. */
  function RangeText(start: nat, count: Option<nat>): string {
    NatToString(start) + (if count.Some? then "," + NatToString(count.value) else "")
  }

  lemma {:induction false} RangeTextParse(start: nat, count: Option<nat>, rest: string)
    requires rest == [] || (!IsDigit(rest[0]) && rest[0] != ',')
    ensures ParseRange(RangeText(start, count) + rest) == Some((start, rest))
  {
    var s := NatToString(start);
    var tail := if count.Some? then "," + NatToString(count.value) + rest else rest;
    var t := RangeText(start, count) + rest;
    assert t == s + tail;
    DigitRunOf(s, tail);
    assert t[..|s|] == s;
    assert t[|s|..] == tail;
    if count.Some? {
      SkipCountOf(NatToString(count.value), rest);
    }
    DigitsValueOfNatToString(start);
  }

  /** A hunk header line as git writes it, followed by any text. */
  function HunkHeaderText(oldStart: nat, oldCount: Option<nat>,
                          newStart: nat, newCount: Option<nat>, tail: string): string {
    "@@ -" + (RangeText(oldStart, oldCount) + (" +" + (RangeText(newStart, newCount) + (" @@" + tail))))
  }

  lemma PrefixThen(p: string, t: string)
    ensures StartsWith(p + t, p) && (p + t)[|p|..] == t
  {
    assert (p + t)[..|p|] == p;
  }

  /** A hunk header as git writes it is recognised, with both start lines. */
  lemma {:induction false} HunkHeaderRoundTrip(oldStart: nat, oldCount: Option<nat>,
                                               newStart: nat, newCount: Option<nat>, tail: string)
    ensures HunkHeader(HunkHeaderText(oldStart, oldCount, newStart, newCount, tail))
         == Some((oldStart, newStart))
  {
    var rest2 := " @@" + tail;
    var c := RangeText(newStart, newCount) + rest2;
    var rest1 := " +" + c;
    var a := RangeText(oldStart, oldCount) + rest1;
    PrefixThen("@@ -", a);
    RangeTextParse(oldStart, oldCount, rest1);
    PrefixThen(" +", c);
    RangeTextParse(newStart, newCount, rest2);
    PrefixThen(" @@", tail);
  }

  // ---------------------------------------------------------------------
  // The parser as a specification: a scan over the lines of the diff

  datatype ScanState = ScanState(files: seq<FileChange>, current: Option<string>,
                                 changes: seq<DiffChange>, oldNum: nat, newNum: nat)

  const Initial := ScanState([], None, [], 0, 0)

  function MakeFileChange(name: string, changes: seq<DiffChange>): FileChange {
    FileChange(name, "a/" + name, "b/" + name, changes)
  }

  /** The files collected so far plus the one still open, if any. */
  function Flush(st: ScanState): seq<FileChange> {
    if st.current.Some? then st.files + [MakeFileChange(st.current.value, st.changes)]
    else st.files
  }

  /** A `--- a/` header closes the open file and starts a new, empty one. */
  function OpenFile(st: ScanState, name: string): ScanState {
    st.(files := Flush(st), current := Some(name), changes := [])
  }

  /** How a line that is not a file header is read, in the parser's order
      of tests: hunk header, deletion, addition, context (a leading space is
      dropped; inside a file any other line not starting with `@@` is context
      verbatim), or ignored. */
  datatype LineKind = HunkLine(oldStart: nat, newStart: nat)
                    | DeletedLine(text: string)
                    | AddedLine(text: string)
                    | ContextLine(text: string)
                    | IgnoredLine

  function Classify(line: string, inFile: bool): LineKind {
    match HunkHeader(line)
    case Some(starts) => HunkLine(starts.0, starts.1)
    case None =>
      if StartsWith(line, "-") then DeletedLine(line[1..])
      else if StartsWith(line, "+") then AddedLine(line[1..])
      else if StartsWith(line, " ") then ContextLine(line[1..])
      else if !StartsWith(line, "@@") && inFile then ContextLine(line)
      else IgnoredLine
  }

  /** Deletions and context lines take the old counter, additions the new
      one; each counter advances past the lines it numbers. */
  function LineStep(st: ScanState, line: string): ScanState {
    var ScanState(files, current, changes, oldNum, newNum) := st;
    match Classify(line, current.Some?)
    case HunkLine(o, n) => ScanState(files, current, changes, o, n)
    case DeletedLine(text) =>
      ScanState(files, current, changes + [DiffChange(oldNum, Deletion, Some(text), None)],
                oldNum + 1, newNum)
    case AddedLine(text) =>
      ScanState(files, current, changes + [DiffChange(newNum, Addition, None, Some(text))],
                oldNum, newNum + 1)
    case ContextLine(text) =>
      ScanState(files, current, changes + [DiffChange(oldNum, Context, Some(text), Some(text))],
                oldNum + 1, newNum + 1)
    case IgnoredLine => st
  }

  /** The rest of the scan from line `i`; a header skips the line after it,
      which must be a `+++ b/` line when there is one. */
  function Scan(lines: seq<string>, i: nat, st: ScanState): Result<ScanState, ParseError>
    decreases |lines| - i
  {
    if i >= |lines| then Ok(st)
    else
      match FileHeader(lines[i])
      case Some(name) =>
        if i + 1 < |lines| && !IsNewFileHeader(lines[i + 1]) then Err(MissingNewFileHeader)
        else Scan(lines, i + 2, OpenFile(st, name))
      case None => Scan(lines, i + 1, LineStep(st, lines[i]))
  }

  /** Line numbering, read off the raw line: a hunk header sets both
      counters; a deletion takes the old counter and advances only it; an
      addition takes the new counter and advances only it; a context line
      (one leading space dropped, or any non-`@@` line kept verbatim while a
      file is open) takes the old counter and advances both; anything else
      leaves the state alone. */
  lemma LineNumbering(st: ScanState, line: string)
    ensures HunkHeader(line).Some? ==>
      LineStep(st, line) == st.(oldNum := HunkHeader(line).value.0, newNum := HunkHeader(line).value.1)
    ensures HunkHeader(line).None? && StartsWith(line, "-") ==>
      LineStep(st, line) == st.(changes := st.changes + [DiffChange(st.oldNum, Deletion, Some(line[1..]), None)],
                                oldNum := st.oldNum + 1)
    ensures HunkHeader(line).None? && StartsWith(line, "+") ==>
      LineStep(st, line) == st.(changes := st.changes + [DiffChange(st.newNum, Addition, None, Some(line[1..]))],
                                newNum := st.newNum + 1)
    ensures HunkHeader(line).None? && StartsWith(line, " ") ==>
      LineStep(st, line) == st.(changes := st.changes + [DiffChange(st.oldNum, Context, Some(line[1..]), Some(line[1..]))],
                                oldNum := st.oldNum + 1, newNum := st.newNum + 1)
    ensures HunkHeader(line).None? && st.current.Some? && line != [] && line[0] !in "-+ " && !StartsWith(line, "@@") ==>
      LineStep(st, line) == st.(changes := st.changes + [DiffChange(st.oldNum, Context, Some(line), Some(line))],
                                oldNum := st.oldNum + 1, newNum := st.newNum + 1)
    ensures HunkHeader(line).None? && (StartsWith(line, "@@") || (st.current.None? && (line == [] || line[0] !in "-+ "))) ==>
      LineStep(st, line) == st
  {
  }

  lemma ScanHeaderStep(lines: seq<string>, i: nat, st: ScanState)
    requires i < |lines| && FileHeader(lines[i]).Some?
    requires i + 1 < |lines| ==> IsNewFileHeader(lines[i + 1])
    ensures Scan(lines, i, st) == Scan(lines, i + 2, OpenFile(st, FileHeader(lines[i]).value))
  {
  }

  lemma ScanLineStep(lines: seq<string>, i: nat, st: ScanState)
    requires i < |lines| && FileHeader(lines[i]).None?
    ensures Scan(lines, i, st) == Scan(lines, i + 1, LineStep(st, lines[i]))
  {
  }

  /** The lines the parser walks: the stripped input split at newlines. */
  function Lines(content: string): seq<string> {
    Split(PyStrip(content), '\n')
  }

  function WithModifications(f: FileChange): FileChange {
    f.(changes := Pair(f.changes))
  }

  function AllModifications(files: seq<FileChange>): (r: seq<FileChange>)
    ensures |r| == |files|
    ensures forall k :: 0 <= k < |files| ==> r[k] == WithModifications(files[k])
  {
    seq(|files|, k requires 0 <= k < |files| => WithModifications(files[k]))
  }

  /** What the parser makes of a finished scan. */
  function Finish(scanned: Result<ScanState, ParseError>): Result<seq<FileChange>, ParseError> {
    match scanned
    case Err(e) => Err(e)
    case Ok(st) =>
      var files := Flush(st);
      if files == [] then Err(NoValidFileChanges) else Ok(AllModifications(files))
  }

  /** The whole parse, from diff text to file changes. */
  function ParseSpec(content: string): Result<seq<FileChange>, ParseError> {
    if IsBlank(content) then Ok([]) else Finish(Scan(Lines(content), 0, Initial))
  }

  /** The loop over the lines, with the open file, its changes and the two
      line counters as its state. */
  method ScanLines(lines: seq<string>) returns (r: Result<ScanState, ParseError>)
    ensures r == Scan(lines, 0, Initial)
  {
    var files: seq<FileChange> := [];
    var current: Option<string> := None;
    var changes: seq<DiffChange> := [];
    var oldNum: nat := 0;
    var newNum: nat := 0;
    var i: nat := 0;
    ghost var whole := Scan(lines, 0, Initial);
    assert ScanState(files, current, changes, oldNum, newNum) == Initial;
    while i < |lines|
      invariant Scan(lines, i, ScanState(files, current, changes, oldNum, newNum)) == whole
    {
      var line := lines[i];
      ghost var before := ScanState(files, current, changes, oldNum, newNum);
      var header := FileHeader(line);
      if header.Some? {
        if current.Some? {
          files := files + [MakeFileChange(current.value, changes)];
        }
        current := header;
        changes := [];
        i := i + 1;
        if i < |lines| && !IsNewFileHeader(lines[i]) {
          ScanHeaderError(lines, i - 1, before);
          return Err(MissingNewFileHeader);
        }
        ScanHeaderStep(lines, i - 1, before);
        i := i + 1;
        continue;
      }
      ScanLineStep(lines, i, before);
      var kind := Classify(line, current.Some?);
      match kind {
        case HunkLine(o, n) =>
          oldNum, newNum := o, n;
        case DeletedLine(text) =>
          changes := changes + [DiffChange(oldNum, Deletion, Some(text), None)];
          oldNum := oldNum + 1;
        case AddedLine(text) =>
          changes := changes + [DiffChange(newNum, Addition, None, Some(text))];
          newNum := newNum + 1;
        case ContextLine(text) =>
          changes := changes + [DiffChange(oldNum, Context, Some(text), Some(text))];
          oldNum := oldNum + 1;
          newNum := newNum + 1;
        case IgnoredLine =>
      }
      i := i + 1;
    }
    return Ok(ScanState(files, current, changes, oldNum, newNum));
  }

  lemma ScanHeaderError(lines: seq<string>, i: nat, st: ScanState)
    requires i + 1 < |lines| && FileHeader(lines[i]).Some? && !IsNewFileHeader(lines[i + 1])
    ensures Scan(lines, i, st) == Err(MissingNewFileHeader)
  {
  }

  /** The parser: the line loop, then modification pairing per file. */
  method Parse(content: string) returns (r: Result<seq<FileChange>, ParseError>)
    ensures r == ParseSpec(content)
  {
    if IsBlank(content) {
      return Ok([]);
    }
    var lines := Split(PyStrip(content), '\n');
    var scanned := ScanLines(lines);
    if scanned.Err? {
      return Err(scanned.error);
    }
    var files := scanned.value.files;
    if scanned.value.current.Some? {
      files := files + [MakeFileChange(scanned.value.current.value, scanned.value.changes)];
    }
    if files == [] {
      return Err(NoValidFileChanges);
    }
    var out := DetectAllModifications(files);
    return Ok(out);
  }

  /** The post-processing pass: pairing within each file in turn. */
  method DetectAllModifications(files: seq<FileChange>) returns (out: seq<FileChange>)
    ensures out == AllModifications(files)
  {
    out := [];
    var k := 0;
    while k < |files|
      invariant 0 <= k <= |files|
      invariant |out| == k
      invariant forall j :: 0 <= j < k ==> out[j] == WithModifications(files[j])
    {
      var paired := DetectModifications(files[k].changes);
      out := out + [files[k].(changes := paired)];
      k := k + 1;
    }
  }

  // ---------------------------------------------------------------------
  // Modification pairing

  /** A deletion immediately followed by an addition becomes one
      modification at the deletion's line, scanning left to right. */
  function Pair(c: seq<DiffChange>): (r: seq<DiffChange>)
    ensures |r| <= |c|
    decreases |c|
  {
    if c == [] then []
    else if c[0].kind == Deletion && |c| >= 2 && c[1].kind == Addition then
      [DiffChange(c[0].lineNumber, Modification, c[0].oldLine, c[1].newLine)] + Pair(c[2..])
    else [c[0]] + Pair(c[1..])
  }

  lemma PairPairStep(c: seq<DiffChange>, i: nat)
    requires i + 1 < |c| && c[i].kind == Deletion && c[i + 1].kind == Addition
    ensures Pair(c[i..]) == [DiffChange(c[i].lineNumber, Modification, c[i].oldLine, c[i + 1].newLine)]
                            + Pair(c[i + 2..])
  {
    assert c[i..][2..] == c[i + 2..];
  }

  lemma PairSingleStep(c: seq<DiffChange>, i: nat)
    requires i < |c| && !(c[i].kind == Deletion && i + 1 < |c| && c[i + 1].kind == Addition)
    ensures Pair(c[i..]) == [c[i]] + Pair(c[i + 1..])
  {
    assert c[i..][1..] == c[i + 1..];
  }

  method DetectModifications(changes: seq<DiffChange>) returns (processed: seq<DiffChange>)
    ensures processed == Pair(changes)
  {
    processed := [];
    var i := 0;
    while i < |changes|
      invariant 0 <= i <= |changes|
      invariant processed + Pair(changes[i..]) == Pair(changes)
      decreases |changes| - i
    {
      var current := changes[i];
      ghost var prev := processed;
      if current.kind == Deletion && i + 1 < |changes| && changes[i + 1].kind == Addition {
        var m := DiffChange(current.lineNumber, Modification, current.oldLine, changes[i + 1].newLine);
        PairPairStep(changes, i);
        processed := processed + [m];
        assert prev + Pair(changes[i..]) == processed + Pair(changes[i + 2..]);
        i := i + 2;
      } else {
        PairSingleStep(changes, i);
        processed := processed + [current];
        assert prev + Pair(changes[i..]) == processed + Pair(changes[i + 1..]);
        i := i + 1;
      }
    }
    assert changes[i..] == [];
  }

  /** Number of modifications in a change list. */
  function Modifications(cs: seq<DiffChange>): nat {
    if cs == [] then 0 else (if cs[0].kind == Modification then 1 else 0) + Modifications(cs[1..])
  }

  /** No deletion is directly followed by an addition. */
  predicate Unpaired(cs: seq<DiffChange>) {
    forall k :: 0 <= k < |cs| - 1 ==> !(cs[k].kind == Deletion && cs[k + 1].kind == Addition)
  }

  /** Each change carries exactly the texts its kind calls for. */
  predicate WellFormedChange(c: DiffChange) {
    match c.kind
    case Deletion => c.oldLine.Some? && c.newLine.None?
    case Addition => c.oldLine.None? && c.newLine.Some?
    case Context => c.oldLine.Some? && c.newLine == c.oldLine
    case Modification => c.oldLine.Some? && c.newLine.Some?
  }

  predicate AllWellFormed(cs: seq<DiffChange>) {
    forall k :: 0 <= k < |cs| ==> WellFormedChange(cs[k])
  }

  /** The removed-side texts, in order. */
  function OldTexts(cs: seq<DiffChange>): seq<string> {
    if cs == [] then []
    else (if cs[0].oldLine.Some? then [cs[0].oldLine.value] else []) + OldTexts(cs[1..])
  }

  /** The added-side texts, in order. */
  function NewTexts(cs: seq<DiffChange>): seq<string> {
    if cs == [] then []
    else (if cs[0].newLine.Some? then [cs[0].newLine.value] else []) + NewTexts(cs[1..])
  }

  /** Pairing is greedy and complete: each pair it forms shortens the list by
      one, and no deletion-addition pair is left over. */
  lemma {:induction false} PairCounts(c: seq<DiffChange>)
    ensures |Pair(c)| + Modifications(Pair(c)) == |c| + Modifications(c)
    ensures Unpaired(Pair(c))
    ensures c != [] ==> Pair(c) != [] && (Pair(c)[0].kind == Modification || Pair(c)[0] == c[0])
    decreases |c|
  {
    if c == [] {
    } else if c[0].kind == Deletion && |c| >= 2 && c[1].kind == Addition {
      var m := DiffChange(c[0].lineNumber, Modification, c[0].oldLine, c[1].newLine);
      var rest := Pair(c[2..]);
      PairCounts(c[2..]);
      assert Pair(c) == [m] + rest;
      assert ([m] + rest)[1..] == rest;
      assert c[1..][1..] == c[2..];
    } else {
      var rest := Pair(c[1..]);
      PairCounts(c[1..]);
      assert Pair(c) == [c[0]] + rest;
      assert ([c[0]] + rest)[1..] == rest;
    }
  }

  /** A list with nothing left to pair passes through unchanged, so pairing
      twice is pairing once. */
  lemma {:induction false} PairUnpaired(c: seq<DiffChange>)
    requires Unpaired(c)
    ensures Pair(c) == c
    decreases |c|
  {
    if c != [] {
      assert Unpaired(c[1..]) by {
        forall k | 0 <= k < |c[1..]| - 1
          ensures !(c[1..][k].kind == Deletion && c[1..][k + 1].kind == Addition)
        {
          assert c[1..][k] == c[k + 1] && c[1..][k + 1] == c[k + 2];
        }
      }
      PairUnpaired(c[1..]);
    }
  }

  lemma PairIdempotent(c: seq<DiffChange>)
    ensures Pair(Pair(c)) == Pair(c)
  {
    PairCounts(c);
    PairUnpaired(Pair(c));
  }

  lemma AllWellFormedSuffix(c: seq<DiffChange>, n: nat)
    requires AllWellFormed(c) && n <= |c|
    ensures AllWellFormed(c[n..])
  {
    forall k | 0 <= k < |c[n..]| ensures WellFormedChange(c[n..][k]) {
      assert c[n..][k] == c[k + n];
    }
  }

  lemma TextsCons(x: DiffChange, xs: seq<DiffChange>)
    ensures OldTexts([x] + xs) == (if x.oldLine.Some? then [x.oldLine.value] else []) + OldTexts(xs)
    ensures NewTexts([x] + xs) == (if x.newLine.Some? then [x.newLine.value] else []) + NewTexts(xs)
  {
    assert ([x] + xs)[1..] == xs;
  }

  /** Merging a deletion `x` and an addition `y` keeps the texts of both
      sides, given that the rest keeps them. */
  lemma TextsPaired(x: DiffChange, y: DiffChange, rest: seq<DiffChange>, paired: seq<DiffChange>)
    requires x.newLine.None? && y.oldLine.None?
    ensures OldTexts(paired) == OldTexts(rest) ==>
      OldTexts([DiffChange(x.lineNumber, Modification, x.oldLine, y.newLine)] + paired) == OldTexts([x, y] + rest)
    ensures NewTexts(paired) == NewTexts(rest) ==>
      NewTexts([DiffChange(x.lineNumber, Modification, x.oldLine, y.newLine)] + paired) == NewTexts([x, y] + rest)
  {
    TextsCons(DiffChange(x.lineNumber, Modification, x.oldLine, y.newLine), paired);
    assert [x, y] + rest == [x] + ([y] + rest);
    TextsCons(x, [y] + rest);
    TextsCons(y, rest);
  }

  /** A change passed through keeps its texts, given that the rest keeps
      them. */
  lemma TextsPassed(x: DiffChange, rest: seq<DiffChange>, paired: seq<DiffChange>)
    ensures OldTexts(paired) == OldTexts(rest) ==> OldTexts([x] + paired) == OldTexts([x] + rest)
    ensures NewTexts(paired) == NewTexts(rest) ==> NewTexts([x] + paired) == NewTexts([x] + rest)
  {
    TextsCons(x, paired);
    TextsCons(x, rest);
  }

  /** On the parser's well-formed changes, pairing keeps every removed
      text, in order. */
  lemma {:induction false} PairKeepsOldTexts(c: seq<DiffChange>)
    requires AllWellFormed(c)
    ensures OldTexts(Pair(c)) == OldTexts(c)
    decreases |c|
  {
    if c == [] {
    } else if c[0].kind == Deletion && |c| >= 2 && c[1].kind == Addition {
      AllWellFormedSuffix(c, 2);
      PairKeepsOldTexts(c[2..]);
      assert WellFormedChange(c[0]) && WellFormedChange(c[1]);
      TextsPaired(c[0], c[1], c[2..], Pair(c[2..]));
      assert c == [c[0], c[1]] + c[2..];
    } else {
      AllWellFormedSuffix(c, 1);
      PairKeepsOldTexts(c[1..]);
      TextsPassed(c[0], c[1..], Pair(c[1..]));
      assert c == [c[0]] + c[1..];
    }
  }

  /** ... and every added text, in order. */
  lemma {:induction false} PairKeepsNewTexts(c: seq<DiffChange>)
    requires AllWellFormed(c)
    ensures NewTexts(Pair(c)) == NewTexts(c)
    decreases |c|
  {
    if c == [] {
    } else if c[0].kind == Deletion && |c| >= 2 && c[1].kind == Addition {
      AllWellFormedSuffix(c, 2);
      PairKeepsNewTexts(c[2..]);
      assert WellFormedChange(c[0]) && WellFormedChange(c[1]);
      TextsPaired(c[0], c[1], c[2..], Pair(c[2..]));
      assert c == [c[0], c[1]] + c[2..];
    } else {
      AllWellFormedSuffix(c, 1);
      PairKeepsNewTexts(c[1..]);
      TextsPassed(c[0], c[1..], Pair(c[1..]));
      assert c == [c[0]] + c[1..];
    }
  }

  /** Pairing turns well-formed changes into well-formed changes. */
  lemma {:induction false} PairWellFormed(c: seq<DiffChange>)
    requires AllWellFormed(c)
    ensures AllWellFormed(Pair(c))
    decreases |c|
  {
    if c == [] {
    } else if c[0].kind == Deletion && |c| >= 2 && c[1].kind == Addition {
      var m := DiffChange(c[0].lineNumber, Modification, c[0].oldLine, c[1].newLine);
      AllWellFormedSuffix(c, 2);
      PairWellFormed(c[2..]);
      assert WellFormedChange(c[0]) && WellFormedChange(c[1]);
      var r := [m] + Pair(c[2..]);
      assert Pair(c) == r;
      forall k | 0 <= k < |r| ensures WellFormedChange(r[k]) {
        if k > 0 { assert r[k] == Pair(c[2..])[k - 1]; }
      }
    } else {
      AllWellFormedSuffix(c, 1);
      PairWellFormed(c[1..]);
      var r := [c[0]] + Pair(c[1..]);
      assert Pair(c) == r;
      forall k | 0 <= k < |r| ensures WellFormedChange(r[k]) {
        if k > 0 { assert r[k] == Pair(c[1..])[k - 1]; }
      }
    }
  }

  // ---------------------------------------------------------------------
  // What the parse returns

  /** Some `--- a/` line at or after `i` is followed by a line that is not a
      `+++ b/` line. */
  predicate MissingPlus(lines: seq<string>, i: nat) {
    exists j :: i <= j && j + 1 < |lines| && FileHeader(lines[j]).Some? && !IsNewFileHeader(lines[j + 1])
  }

  /** The names on the `--- a/` lines at or after `i`, in order. */
  function HeaderNames(lines: seq<string>, i: nat): seq<string>
    decreases |lines| - i
  {
    if i >= |lines| then []
    else (if FileHeader(lines[i]).Some? then [FileHeader(lines[i]).value] else []) + HeaderNames(lines, i + 1)
  }

  function Filenames(files: seq<FileChange>): seq<string> {
    if files == [] then [] else Filenames(files[..|files| - 1]) + [files[|files| - 1].filename]
  }

  /** The file names the scan has seen: closed files, then the open one. */
  function StateNames(st: ScanState): seq<string> {
    Filenames(st.files) + (if st.current.Some? then [st.current.value] else [])
  }

  predicate Named(files: seq<FileChange>) {
    forall k :: 0 <= k < |files| ==>
      files[k].oldFilename == "a/" + files[k].filename && files[k].newFilename == "b/" + files[k].filename
  }

  predicate StateWellFormed(st: ScanState) {
    AllWellFormed(st.changes) && Named(st.files) &&
    forall k :: 0 <= k < |st.files| ==> AllWellFormed(st.files[k].changes)
  }

  lemma FlushNames(st: ScanState)
    ensures Filenames(Flush(st)) == StateNames(st)
  {
    if st.current.Some? {
      var fs := Flush(st);
      assert fs[..|fs| - 1] == st.files;
    }
  }

  lemma PlusLineIsNotHeader(line: string)
    requires IsNewFileHeader(line)
    ensures FileHeader(line).None?
  {
    assert line[0] == line[..6][0] == '+';
  }

  lemma MissingPlusStep(lines: seq<string>, i: nat)
    requires i < |lines|
    ensures MissingPlus(lines, i) <==>
      (i + 1 < |lines| && FileHeader(lines[i]).Some? && !IsNewFileHeader(lines[i + 1]))
      || MissingPlus(lines, i + 1)
  {
    if MissingPlus(lines, i) {
      var j :| i <= j && j + 1 < |lines| && FileHeader(lines[j]).Some? && !IsNewFileHeader(lines[j + 1]);
      if j > i {
        assert MissingPlus(lines, i + 1);
      }
    }
  }

  /** The scan fails exactly when a `--- a/` line has a successor that is not
      a `+++ b/` line, and then with that error. */
  lemma {:induction false} ScanErrors(lines: seq<string>, i: nat, st: ScanState)
    ensures Scan(lines, i, st).Err? <==> MissingPlus(lines, i)
    ensures Scan(lines, i, st).Err? ==> Scan(lines, i, st).error == MissingNewFileHeader
    decreases |lines| - i
  {
    if i < |lines| {
      MissingPlusStep(lines, i);
      var header := FileHeader(lines[i]);
      if header.None? {
        ScanLineStep(lines, i, st);
        ScanErrors(lines, i + 1, LineStep(st, lines[i]));
      } else if i + 1 < |lines| && !IsNewFileHeader(lines[i + 1]) {
        ScanHeaderError(lines, i, st);
      } else {
        ScanHeaderStep(lines, i, st);
        ScanErrors(lines, i + 2, OpenFile(st, header.value));
        if i + 1 < |lines| {
          PlusLineIsNotHeader(lines[i + 1]);
          MissingPlusStep(lines, i + 1);
        }
      }
    }
  }

  lemma LineStepKeepsFiles(st: ScanState, line: string)
    ensures LineStep(st, line).files == st.files && LineStep(st, line).current == st.current
  {
  }

  /** A successful scan has opened one file per `--- a/` line, in order. */
  lemma {:induction false} ScanNames(lines: seq<string>, i: nat, st: ScanState)
    requires Scan(lines, i, st).Ok?
    ensures StateNames(Scan(lines, i, st).value) == StateNames(st) + HeaderNames(lines, i)
    decreases |lines| - i
  {
    if i < |lines| {
      var header := FileHeader(lines[i]);
      if header.None? {
        ScanLineStep(lines, i, st);
        LineStepKeepsFiles(st, lines[i]);
        ScanNames(lines, i + 1, LineStep(st, lines[i]));
      } else {
        if i + 1 < |lines| && !IsNewFileHeader(lines[i + 1]) {
          ScanHeaderError(lines, i, st);
          assert false;
        }
        ScanHeaderStep(lines, i, st);
        ScanNames(lines, i + 2, OpenFile(st, header.value));
        OpenFileNames(lines, i, st);
      }
    }
  }

  lemma OpenFileNames(lines: seq<string>, i: nat, st: ScanState)
    requires i < |lines| && FileHeader(lines[i]).Some?
    requires i + 1 < |lines| ==> IsNewFileHeader(lines[i + 1])
    ensures StateNames(OpenFile(st, FileHeader(lines[i]).value)) + HeaderNames(lines, i + 2)
         == StateNames(st) + HeaderNames(lines, i)
  {
    var name := FileHeader(lines[i]).value;
    FlushNames(st);
    assert StateNames(OpenFile(st, name)) == StateNames(st) + [name];
    if i + 1 < |lines| {
      PlusLineIsNotHeader(lines[i + 1]);
      assert HeaderNames(lines, i + 1) == HeaderNames(lines, i + 2);
    }
    assert HeaderNames(lines, i) == [name] + HeaderNames(lines, i + 2);
  }

  /** Every change the scan records carries the texts its kind calls for,
      and every file it closes is named `a/<name>` and `b/<name>`. */
  lemma {:induction false} ScanWellFormed(lines: seq<string>, i: nat, st: ScanState)
    requires StateWellFormed(st)
    requires Scan(lines, i, st).Ok?
    ensures StateWellFormed(Scan(lines, i, st).value)
    decreases |lines| - i
  {
    if i < |lines| {
      match FileHeader(lines[i])
      case Some(name) =>
        ScanWellFormed(lines, i + 2, OpenFile(st, name));
      case None =>
        var next := LineStep(st, lines[i]);
        assert AllWellFormed(next.changes) by {
          forall k | 0 <= k < |next.changes| ensures WellFormedChange(next.changes[k]) {
            if k < |st.changes| { assert next.changes[k] == st.changes[k]; }
          }
        }
        ScanWellFormed(lines, i + 1, next);
    }
  }

  lemma AllModificationsNames(files: seq<FileChange>)
    ensures Filenames(AllModifications(files)) == Filenames(files)
    decreases |files|
  {
    if files != [] {
      var r := AllModifications(files);
      assert r[..|r| - 1] == AllModifications(files[..|files| - 1]);
      AllModificationsNames(files[..|files| - 1]);
    }
  }

  /** The outcome of a scan once finished: it fails on a `--- a/` line
      without its `+++ b/` successor, else on lines without any `--- a/`
      line, and else returns one file per `--- a/` line, in order, named
      `a/<name>` and `b/<name>`, whose changes are well formed with every
      deletion-addition pair merged. */
  lemma FinishOutcome(lines: seq<string>)
    ensures Finish(Scan(lines, 0, Initial)) == Err(MissingNewFileHeader) <==> MissingPlus(lines, 0)
    ensures Finish(Scan(lines, 0, Initial)) == Err(NoValidFileChanges)
        <==> !MissingPlus(lines, 0) && HeaderNames(lines, 0) == []
    ensures Finish(Scan(lines, 0, Initial)).Ok? ==>
      var files := Finish(Scan(lines, 0, Initial)).value;
      Filenames(files) == HeaderNames(lines, 0) && Named(files) &&
      forall k :: 0 <= k < |files| ==> AllWellFormed(files[k].changes) && Unpaired(files[k].changes)
  {
    ScanErrors(lines, 0, Initial);
    if Scan(lines, 0, Initial).Ok? {
      var st := Scan(lines, 0, Initial).value;
      ScanNames(lines, 0, Initial);
      ScanWellFormed(lines, 0, Initial);
      FinishFiles(st);
    }
  }

  lemma FinishFiles(st: ScanState)
    requires StateWellFormed(st)
    ensures Finish(Ok(st)) == Err(NoValidFileChanges) <==> StateNames(st) == []
    ensures Finish(Ok(st)).Ok? ==>
      var files := Finish(Ok(st)).value;
      Filenames(files) == StateNames(st) && Named(files) &&
      forall k :: 0 <= k < |files| ==> AllWellFormed(files[k].changes) && Unpaired(files[k].changes)
  {
    var flushed := Flush(st);
    FlushNames(st);
    assert Named(flushed) && forall k :: 0 <= k < |flushed| ==> AllWellFormed(flushed[k].changes);
    if flushed != [] {
      AllModificationsNames(flushed);
      var files := AllModifications(flushed);
      forall k | 0 <= k < |files|
        ensures AllWellFormed(files[k].changes) && Unpaired(files[k].changes)
      {
        PairWellFormed(flushed[k].changes);
        PairCounts(flushed[k].changes);
      }
    } else {
      assert Filenames(flushed) == [];
    }
  }

  /** Blank input parses to no files; otherwise the parse outcome is that
      of the scan over the stripped lines. */
  lemma ParseOutcome(content: string)
    ensures IsBlank(content) ==> ParseSpec(content) == Ok([])
    ensures !IsBlank(content) ==>
      (ParseSpec(content) == Err(MissingNewFileHeader) <==> MissingPlus(Lines(content), 0))
    ensures !IsBlank(content) ==>
      (ParseSpec(content) == Err(NoValidFileChanges)
       <==> !MissingPlus(Lines(content), 0) && HeaderNames(Lines(content), 0) == [])
    ensures !IsBlank(content) && ParseSpec(content).Ok? ==>
      var files := ParseSpec(content).value;
      Filenames(files) == HeaderNames(Lines(content), 0) && Named(files) &&
      forall k :: 0 <= k < |files| ==> AllWellFormed(files[k].changes) && Unpaired(files[k].changes)
  {
    FinishOutcome(Lines(content));
  }

  // ---------------------------------------------------------------------
  // Identifier extraction: the pattern `\b[a-zA-Z_][a-zA-Z0-9_]*\b` over
  // every old and new line text

  /** The matches `findall` reports from position `p` on: a match may only
      start at a word boundary with a letter or `_`, and the greedy tail runs
      to the end of the word, so each word-character run is either one match
      or, when it starts with a digit, none. */
  function FindAll(s: string, p: nat): (r: seq<string>)
    requires p <= |s|
    ensures forall k :: 0 <= k < |r| ==> |r[k]| > 0 && !IsDigit(r[k][0])
    decreases |s| - p
  {
    if p == |s| then []
    else if !IsWordChar(s[p]) then FindAll(s, p + 1)
    else
      var j := WordEnd(s, p);
      (if IsDigit(s[p]) then [] else [s[p..j]]) + FindAll(s, j)
  }

  /** `s[i..j]` is a whole word-character run that does not start with a
      digit: exactly the substrings the identifier pattern matches. */
  predicate IsToken(s: string, i: int, j: int) {
    0 <= i < j <= |s| &&
    (i == 0 || !IsWordChar(s[i - 1])) &&
    (forall k :: i <= k < j ==> IsWordChar(s[k])) &&
    (j == |s| || !IsWordChar(s[j])) &&
    !IsDigit(s[i])
  }

  /** No word-character run straddles position `p`. */
  predicate Boundary(s: string, p: nat) {
    p == 0 || p >= |s| || !IsWordChar(s[p - 1]) || !IsWordChar(s[p])
  }

  /** A token that starts inside the run beginning at a boundary `p` is the
      whole run. */
  lemma TokenInRun(s: string, p: nat, i: int, j: int)
    requires p < |s| && IsWordChar(s[p]) && Boundary(s, p)
    requires p <= i < WordEnd(s, p) && IsToken(s, i, j)
    ensures i == p && j == WordEnd(s, p)
  {
  }

  lemma {:induction false} FindAllTokens(s: string, p: nat)
    requires p <= |s| && Boundary(s, p)
    ensures forall w :: w in FindAll(s, p) <==> exists i, j :: p <= i && IsToken(s, i, j) && w == s[i..j]
    decreases |s| - p
  {
    if p == |s| {
    } else if !IsWordChar(s[p]) {
      FindAllTokens(s, p + 1);
    } else {
      var e := WordEnd(s, p);
      FindAllTokens(s, e);
      var head := if IsDigit(s[p]) then [] else [s[p..e]];
      assert FindAll(s, p) == head + FindAll(s, e);
      forall w ensures w in FindAll(s, p) <==> exists i, j :: p <= i && IsToken(s, i, j) && w == s[i..j] {
        if w in FindAll(s, p) {
          if w in head {
            assert IsToken(s, p, e);
          } else {
            var i, j :| e <= i && IsToken(s, i, j) && w == s[i..j];
          }
        } else {
          forall i, j | p <= i && IsToken(s, i, j) ensures w != s[i..j] {
            if i < e {
              TokenInRun(s, p, i, j);
              assert w !in head;
            }
          }
        }
      }
    }
  }

  /** Every identifier-pattern match in one text. */
  function TokenSet(s: string): set<string> {
    set i, j | 0 <= i < j <= |s| && IsToken(s, i, j) :: s[i..j]
  }

  /** `findall` over a whole text yields exactly its tokens. */
  lemma FindAllIsTokenSet(s: string)
    ensures (set w | w in FindAll(s, 0)) == TokenSet(s)
  {
    FindAllTokens(s, 0);
  }

  /** The set of `findall` matches in one text. */
  function Matches(text: string): (r: set<string>)
    ensures r == TokenSet(text)
    ensures forall w :: w in r ==> |w| > 0 && !IsDigit(w[0])
  {
    FindAllIsTokenSet(text);
    set w | w in FindAll(text, 0)
  }

  /** The matches of a text that is present and nonempty (Python
      truthiness); nothing is lost by skipping the others. */
  function TextMatches(line: Option<string>): (r: set<string>)
    ensures r == LineTokens(line)
  {
    if line.Some? && line.value != "" then Matches(line.value) else {}
  }

  function LineTokens(line: Option<string>): set<string> {
    if line.Some? then Matches(line.value) else {}
  }

  /** The tokens of a change's old and new texts. */
  function ChangeTokens(c: DiffChange): set<string> {
    LineTokens(c.oldLine) + LineTokens(c.newLine)
  }

  function FileTokens(f: FileChange): set<string> {
    UnionOf(f.changes, ChangeTokens)
  }

  /** The tokens of every old and new text of every change, in any file. */
  function FilesTokens(files: seq<FileChange>): set<string> {
    UnionOf(files, FileTokens)
  }

  /** The collected set holds a string exactly when it is an identifier
      token of the old or new text of some change of some file. */
  lemma FilesTokensMembers(files: seq<FileChange>)
    ensures forall w :: w in FilesTokens(files) <==>
      exists k, m :: 0 <= k < |files| && 0 <= m < |files[k].changes| &&
                     w in ChangeTokens(files[k].changes[m])
  {
    UnionOfMembers(files, FileTokens);
    forall k | 0 <= k < |files| {
      UnionOfMembers(files[k].changes, ChangeTokens);
    }
  }

  /** Every collected identifier is nonempty and starts with a non-digit. */
  lemma FilesTokensShape(files: seq<FileChange>)
    ensures forall w :: w in FilesTokens(files) ==> |w| > 0 && !IsDigit(w[0])
  {
    FilesTokensMembers(files);
  }

  const RustKeywords: set<string> :=
    {"struct", "impl", "fn", "enum", "trait", "mod", "pub", "use",
     "let", "mut", "const", "static", "match", "if", "else", "loop",
     "for", "while", "return", "break", "continue", "Self", "self",
     "i32", "i64", "u32", "u64", "f32", "f64", "bool", "char", "str",
     "String", "Vec", "Option", "Result"}

  /** Python's `str.isdigit` on ASCII text: nonempty and all digits. */
  predicate PyIsDigits(s: string) {
    |s| > 0 && forall k :: 0 <= k < |s| ==> IsDigit(s[k])
  }

  /** The `isdigit` filter keeps every token, since none starts with a digit. */
  lemma DigitFilterKeeps(found: set<string>)
    requires forall w :: w in found ==> |w| > 0 && !IsDigit(w[0])
    ensures (set w | w in found && |w| >= 1 && !PyIsDigits(w)) == found
  {
  }

  /** The inner loop over one file's changes: adds the identifiers of
      every present, nonempty old and new text. */
  method AddChangeTokens(found: set<string>, changes: seq<DiffChange>) returns (r: set<string>)
    ensures r == found + UnionOf(changes, ChangeTokens)
  {
    r := found;
    var j := 0;
    while j < |changes|
      invariant j <= |changes|
      invariant r == found + UnionOf(changes[..j], ChangeTokens)
    {
      var change := changes[j];
      UnionOfStep(changes, ChangeTokens, j);
      r := r + TextMatches(change.oldLine);
      r := r + TextMatches(change.newLine);
      j := j + 1;
    }
    assert changes[..j] == changes;
  }

  lemma UnionWithSubset(a: set<string>, b: set<string>)
    requires b <= a
    ensures a + b == a
  {
  }

  /** The identifier set: the digit filter and the keyword union that
      follow the loops leave the collected tokens unchanged. */
  method ExtractIdentifiers(files: seq<FileChange>) returns (ids: set<string>)
    ensures ids == FilesTokens(files)
  {
    var found: set<string> := {};
    var i := 0;
    while i < |files|
      invariant i <= |files|
      invariant found == FilesTokens(files[..i])
    {
      found := AddChangeTokens(found, files[i].changes);
      UnionOfStep(files, FileTokens, i);
      i := i + 1;
    }
    assert files[..i] == files;
    FilesTokensShape(files);
    DigitFilterKeeps(found);
    ids := set w | w in found && |w| >= 1 && !PyIsDigits(w);
    UnionWithSubset(ids, RustKeywords * found);
    ids := ids + (RustKeywords * found);
  }
}
