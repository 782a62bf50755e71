// The diff-header rewriter: file headers that name paths under two given
// directories are rewritten to git's `a/` and `b/` form, and any timestamp
// after a tab is cut off; every other line is copied as it is.

module FixDiff {
  import opened Common
  import DiffParser

  // ---------------------------------------------------------------------
  // Prefixes

  /** Python `s.rstrip("/")`. */
  function RStripSlashes(s: string): (r: string)
    ensures |r| <= |s| && r == s[..|r|]
    ensures r == [] || r[|r| - 1] != '/'
    ensures forall k :: |r| <= k < |s| ==> s[k] == '/'
  {
    if s != [] && s[|s| - 1] == '/' then RStripSlashes(s[..|s| - 1]) else s
  }

  /** A directory argument as a prefix: its trailing slashes replaced by
      exactly one. */
  function NormalizePrefix(arg: string): string {
    RStripSlashes(arg) + "/"
  }

  /** A normalised prefix ends in exactly one slash, keeps the argument up
      to its trailing slashes, adds one slash to an argument without any,
      and normalising again changes nothing. */
  lemma {:induction false} NormalizePrefixFacts(arg: string)
    ensures var r := NormalizePrefix(arg);
      EndsWith(r, "/") && (|r| == 1 || r[|r| - 2] != '/') &&
      StartsWith(arg, r[..|r| - 1]) &&
      (forall k :: |r| - 1 <= k < |arg| ==> arg[k] == '/') &&
      NormalizePrefix(r) == r
    ensures arg == [] || arg[|arg| - 1] != '/' ==> NormalizePrefix(arg) == arg + "/"
  {
    var s := RStripSlashes(arg);
    var r := s + "/";
    assert r[..|r| - 1] == s;
    assert r[|r| - 1..] == "/";
    assert r[..|r| - 1] == s;
    assert RStripSlashes(r) == RStripSlashes(s) == s;
  }

  // ---------------------------------------------------------------------
  // One line

  /** Where the `\s+` of the anchored pattern `^---\s+<prefix>` (or its
      `+++` twin) ends once the regular-expression engine has backtracked:
      the greedy run of whitespace from index 3 up to `j` is given back one
      character at a time until `prefix` follows it, and at least one
      whitespace character must remain. */
  function Backtrack(line: string, prefix: string, j: nat): (r: Option<nat>)
    requires j <= |line|
    ensures r.Some? ==> 4 <= r.value <= j && OccursAt(line, prefix, r.value)
    ensures r.Some? ==> forall k :: r.value < k <= j ==> !OccursAt(line, prefix, k)
    ensures r.None? ==> forall k :: 4 <= k <= j ==> !OccursAt(line, prefix, k)
    decreases j
  {
    if j < 4 then None
    else if OccursAt(line, prefix, j) then Some(j)
    else Backtrack(line, prefix, j - 1)
  }

  /** `re.sub(r'^---\s+' + re.escape(prefix), replacement, line)` for a line
      that starts with a three-character marker and a space: the matched
      text is replaced when there is a match, else the line is kept. */
  function Substitute(line: string, prefix: string, replacement: string): (r: string)
    requires |line| >= 4 && PyIsSpace(line[3])
  {
    match Backtrack(line, prefix, SpaceEnd(line, 3))
    case Some(j) => replacement + line[j + |prefix|..]
    case None => line
  }

  /** Everything before the first tab, then a newline. */
  function CutAtTab(s: string): string {
    Split(s, '\t')[0] + "\n"
  }

  /** The rewrite of one input line, given the normalised prefixes. */
  function FixLine(line: string, oldPrefix: string, newPrefix: string): string {
    if StartsWith(line, "--- ") then
      CutAtTab(Substitute(line, oldPrefix, "--- a/"))
    else if StartsWith(line, "+++ ") then
      CutAtTab(Substitute(line, newPrefix, "+++ b/"))
    else line
  }

  // ---------------------------------------------------------------------
  // The whole input

  datatype UsageError = Usage

  /** The program: exactly two directory arguments, then every line of the
      input (each with its own newline, as read) rewritten in order. */
  function FixDiff(args: seq<string>, lines: seq<string>): (r: Result<seq<string>, UsageError>)
    ensures r.Ok? <==> |args| == 2
    ensures r.Ok? ==> |r.value| == |lines|
  {
    if |args| != 2 then Err(Usage)
    else
      var oldPrefix, newPrefix := NormalizePrefix(args[0]), NormalizePrefix(args[1]);
      Ok(seq(|lines|, i requires 0 <= i < |lines| => FixLine(lines[i], oldPrefix, newPrefix)))
  }

  // ---------------------------------------------------------------------
  // Properties

  /** A header line comes out as one line without a tab, ending in a
      newline; every other line comes out unchanged. */
  lemma FixLineShape(line: string, oldPrefix: string, newPrefix: string)
    ensures var r := FixLine(line, oldPrefix, newPrefix);
      (StartsWith(line, "--- ") || StartsWith(line, "+++ ")) ==>
        '\t' !in r && EndsWith(r, "\n")
    ensures !StartsWith(line, "--- ") && !StartsWith(line, "+++ ") ==>
      FixLine(line, oldPrefix, newPrefix) == line
  {
    var r := FixLine(line, oldPrefix, newPrefix);
    if StartsWith(line, "--- ") || StartsWith(line, "+++ ") {
      var head := Split(if StartsWith(line, "--- ") then Substitute(line, oldPrefix, "--- a/")
                        else Substitute(line, newPrefix, "+++ b/"), '\t')[0];
      assert r == head + "\n";
      assert r[|r| - 1..] == "\n";
    }
  }

  /** A header whose path follows the prefix after a single space comes out
      in `a/` form, without the tab-separated timestamp; the parser then
      reads the path back from it. */
  lemma OldHeaderRewritten(line: string, prefix: string, path: string, stamp: string)
    requires prefix != [] && !PyIsSpace(prefix[0]) && '\t' !in path
    requires line == "--- " + prefix + path + "\t" + stamp
    ensures CutAtTab(Substitute(line, prefix, "--- a/")) == "--- a/" + path + "\n"
    ensures path != [] ==> DiffParser.FileHeader("--- a/" + path) == Some(path)
  {
    HeaderRewritten(line, "--- ", prefix, path, stamp, "--- a/");
  }

  lemma NewHeaderRewritten(line: string, prefix: string, path: string, stamp: string)
    requires prefix != [] && !PyIsSpace(prefix[0]) && '\t' !in path
    requires line == "+++ " + prefix + path + "\t" + stamp
    ensures CutAtTab(Substitute(line, prefix, "+++ b/")) == "+++ b/" + path + "\n"
    ensures path != [] ==> DiffParser.IsNewFileHeader("+++ b/" + path)
  {
    HeaderRewritten(line, "+++ ", prefix, path, stamp, "+++ b/");
  }

  lemma HeaderRewritten(line: string, marker: string, prefix: string, path: string,
                        stamp: string, replacement: string)
    requires |marker| == 4 && marker[3] == ' ' && '\t' !in replacement
    requires prefix != [] && !PyIsSpace(prefix[0]) && '\t' !in path
    requires line == marker + prefix + path + "\t" + stamp
    ensures CutAtTab(Substitute(line, prefix, replacement)) == replacement + path + "\n"
  {
    assert line[3] == ' ' && line[4] == prefix[0];
    assert SpaceEnd(line, 4) == 4;
    assert SpaceEnd(line, 3) == 4;
    assert OccursAt(line, prefix, 4) by {
      assert line[4..4 + |prefix|] == prefix;
    }
    var rest := line[4 + |prefix|..];
    assert rest == path + ['\t'] + stamp;
    assert Substitute(line, prefix, replacement) == (replacement + path) + ['\t'] + stamp;
    SplitConcat(replacement + path, stamp, '\t');
  }

  /** Without a tab, the newline a header line was read with is kept and a
      second one is added. */
  lemma UntabbedHeaderDoublesNewline(line: string, oldPrefix: string, newPrefix: string)
    requires StartsWith(line, "--- ") || StartsWith(line, "+++ ")
    requires '\t' !in line && EndsWith(line, "\n")
    requires oldPrefix != [] && oldPrefix[|oldPrefix| - 1] == '/'
    requires newPrefix != [] && newPrefix[|newPrefix| - 1] == '/'
    ensures EndsWith(FixLine(line, oldPrefix, newPrefix), "\n\n")
  {
    if StartsWith(line, "--- ") {
      assert line[3] == ' ';
      SubstitutedEndsWithNewline(line, oldPrefix, "--- a/");
    } else {
      assert line[3] == ' ';
      SubstitutedEndsWithNewline(line, newPrefix, "+++ b/");
    }
  }

  lemma SubstitutedEndsWithNewline(line: string, prefix: string, replacement: string)
    requires |line| >= 4 && PyIsSpace(line[3])
    requires '\t' !in line && '\t' !in replacement && EndsWith(line, "\n")
    requires prefix != [] && prefix[|prefix| - 1] == '/'
    ensures EndsWith(CutAtTab(Substitute(line, prefix, replacement)), "\n\n")
  {
    var s := Substitute(line, prefix, replacement);
    var m := Backtrack(line, prefix, SpaceEnd(line, 3));
    if m.Some? {
      var j := m.value;
      assert line[j + |prefix| - 1] == '/';
      assert j + |prefix| < |line|;
      var rest := line[j + |prefix|..];
      assert rest[|rest| - 1] == line[|line| - 1] == '\n';
      assert s == replacement + rest;
      assert '\t' !in rest;
    }
    assert '\t' !in s && s[|s| - 1] == '\n';
    SplitNoSep(s, '\t');
    var r := s + "\n";
    assert CutAtTab(s) == r;
    assert r[|r| - 2..] == "\n\n";
  }
}
