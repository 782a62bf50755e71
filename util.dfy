// Text helpers of the analyzer: module paths from file paths, whitespace and
// comment normalisation, identifier lists and source spans.

module AnalyzerUtil {
  import opened Common

  // ---------------------------------------------------------------------
  // Module paths

  /** The components `.`, `..` and the root, which have no file name. */
  predicate SpecialComponent(name: string) {
    name == "." || name == ".." || name == "/"
  }

  /** Index of the last `.` in `s`, if any. */
  function LastDot(s: string): (r: Option<nat>)
    ensures r.Some? ==> r.value < |s| && s[r.value] == '.' &&
                        forall k :: r.value < k < |s| ==> s[k] != '.'
    ensures r.None? ==> '.' !in s
  {
    if s == [] then None
    else if s[|s| - 1] == '.' then Some(|s| - 1)
    else LastDot(s[..|s| - 1])
  }

  /** Rust `Path::file_stem` of a single component: nothing for the special
      components; else the name up to its last dot, unless there is no dot
      or the only text before it is empty (a dot file). */
  function FileStem(name: string): Option<string> {
    if SpecialComponent(name) then None
    else match LastDot(name)
      case None => Some(name)
      case Some(k) => if k == 0 then Some(name) else Some(name[..k])
  }

  predicate ModuleFileStem(stem: string) {
    stem == "mod" || stem == "lib" || stem == "main"
  }

  /** The components without a leading `src`. */
  function DropSrc(comps: seq<string>): seq<string> {
    if comps != [] && comps[0] == "src" then comps[1..] else comps
  }

  /** The module-path parts of non-empty components: the directories as
      they are, then the file stem unless it names the directory's own
      module; nothing when the last component has no stem (where the
      source's `unwrap` panics). */
  function ModuleParts(c: seq<string>): Option<seq<string>>
    requires c != []
  {
    match FileStem(c[|c| - 1])
    case None => None
    case Some(stem) => Some(c[..|c| - 1] + (if ModuleFileStem(stem) then [] else [stem]))
  }

  /** The module path of a file given as its path components relative to
      the crate root. */
  function ModulePath(rel: seq<string>): Option<string> {
    var c := DropSrc(rel);
    if c == [] then Some("crate")
    else match ModuleParts(c)
      case None => None
      case Some(parts) => if parts == [] then Some("crate") else Some("crate::" + Join(parts, "::"))
  }

  method RelModulePath(rel: seq<string>) returns (r: Option<string>)
    ensures r == ModulePath(rel)
  {
    var comps := if |rel| > 0 && rel[0] == "src" then rel[1..] else rel;
    if comps == [] {
      return Some("crate");
    }
    var parts: seq<string> := [];
    for i := 0 to |comps|
      invariant i < |comps| ==> parts == comps[..i]
      invariant i == |comps| ==> ModuleParts(comps) == Some(parts)
    {
      if i == |comps| - 1 {
        assert parts == comps[..|comps| - 1];
        var stem := FileStem(comps[i]);
        if stem.None? {
          return None;
        }
        if !ModuleFileStem(stem.value) {
          parts := parts + [stem.value];
        } else {
          assert parts + [] == parts;
        }
      } else {
        assert comps[..i + 1] == comps[..i] + [comps[i]];
        parts := parts + [comps[i]];
      }
    }
    if parts == [] {
      return Some("crate");
    }
    return Some("crate::" + Join(parts, "::"));
  }

  lemma StemOf(name: string, ext: string)
    requires name != [] && '.' !in name && '.' !in ext
    ensures FileStem(name + "." + ext) == Some(name)
  {
    var f := name + "." + ext;
    assert f[|name|] == '.';
    assert f[0] == name[0] && |f| >= 2;
    assert !SpecialComponent(f);
    assert LastDot(f) == Some(|name|) by {
      forall k | |name| < k < |f| ensures f[k] != '.' {
        assert f[k] == ext[k - |name| - 1];
      }
      LastDotAt(f, |name|);
    }
    assert f[..|name|] == name;
  }

  lemma {:induction false} LastDotAt(s: string, k: nat)
    requires k < |s| && s[k] == '.' && forall j :: k < j < |s| ==> s[j] != '.'
    ensures LastDot(s) == Some(k)
    decreases |s|
  {
    if s[|s| - 1] != '.' {
      LastDotAt(s[..|s| - 1], k);
    }
  }

  /** The module path of components that do not start with `src` and
      whose last one has a stem that is not a module file's. */
  lemma ModulePathOfStem(c: seq<string>, stem: string, parts: seq<string>)
    requires c != [] && c[0] != "src" && FileStem(c[|c| - 1]) == Some(stem)
    requires !ModuleFileStem(stem) && parts == c[..|c| - 1] + [stem]
    ensures ModulePath(c) == Some("crate::" + Join(parts, "::"))
  {
    assert DropSrc(c) == c;
  }

  /** The same for a module file's stem. */
  lemma ModulePathOfModuleStem(c: seq<string>, stem: string, dirs: seq<string>)
    requires c != [] && c[0] != "src" && FileStem(c[|c| - 1]) == Some(stem)
    requires ModuleFileStem(stem) && dirs == c[..|c| - 1]
    ensures dirs == [] ==> ModulePath(c) == Some("crate")
    ensures dirs != [] ==> ModulePath(c) == Some("crate::" + Join(dirs, "::"))
  {
    assert DropSrc(c) == c;
    assert dirs + [] == dirs;
    assert ModuleParts(c) == Some(dirs);
  }

  /** A source file `name.ext` under directories `dirs` has the module
      path `crate::` followed by the directories and the name, joined with
      `::`. */
  lemma ModulePathOfFile(dirs: seq<string>, name: string, ext: string)
    requires dirs == [] || dirs[0] != "src"
    requires name != [] && '.' !in name && '.' !in ext && !ModuleFileStem(name)
    ensures ModulePath(dirs + [name + "." + ext]) == Some("crate::" + Join(dirs + [name], "::"))
  {
    StemOf(name, ext);
    var file := name + "." + ext;
    var c := dirs + [file];
    assert c[0] != "src" by {
      if dirs == [] { assert c[0] == file && file[|name|] == '.' && |file| > |name|; }
    }
    assert c[..|c| - 1] == dirs && c[|c| - 1] == file;
    ModulePathOfStem(c, name, dirs + [name]);
  }

  /** A leading `src` component does not show in the module path. */
  lemma SrcDropped(c: seq<string>)
    requires c == [] || c[0] != "src"
    ensures ModulePath(["src"] + c) == ModulePath(c)
  {
    assert (["src"] + c)[1..] == c;
  }

  /** `mod.rs`, `lib.rs` and `main.rs` stand for their directory's module,
      or for the crate itself at the top. */
  lemma ModulePathOfModuleFile(dirs: seq<string>, stem: string, ext: string)
    requires dirs == [] || dirs[0] != "src"
    requires ModuleFileStem(stem) && '.' !in ext
    ensures dirs == [] ==> ModulePath(dirs + [stem + "." + ext]) == Some("crate")
    ensures dirs != [] ==> ModulePath(dirs + [stem + "." + ext]) == Some("crate::" + Join(dirs, "::"))
  {
    assert stem != [] && '.' !in stem;
    StemOf(stem, ext);
    var file := stem + "." + ext;
    var c := dirs + [file];
    assert c[0] != "src" by {
      if dirs == [] { assert c[0] == file && |file| >= 4; }
    }
    assert c[..|c| - 1] == dirs && c[|c| - 1] == file;
    ModulePathOfModuleStem(c, stem, dirs);
  }

  /** Every module path is `crate` or starts with `crate::`. */
  lemma ModulePathPrefix(rel: seq<string>)
    requires ModulePath(rel).Some?
    ensures ModulePath(rel).value == "crate" || StartsWith(ModulePath(rel).value, "crate::")
  {
    var r := ModulePath(rel).value;
    if r != "crate" {
      var parts := ModuleParts(DropSrc(rel)).value;
      assert r == "crate::" + Join(parts, "::");
      assert r[..7] == "crate::";
    }
  }

  // ---------------------------------------------------------------------
  // Whitespace

  /** End of the run of whitespace starting at `i`. */
  function RunEnd(s: string, i: nat): (j: nat)
    requires i <= |s|
    ensures i <= j <= |s|
    ensures forall k :: i <= k < j ==> RustIsSpace(s[k])
    ensures j == |s| || !RustIsSpace(s[j])
    decreases |s| - i
  {
    if i == |s| || !RustIsSpace(s[i]) then i else RunEnd(s, i + 1)
  }

  /** `\s+` replaced by one space everywhere. */
  function Collapse(s: string): (r: string)
    decreases |s|
  {
    if s == [] then []
    else if RustIsSpace(s[0]) then " " + Collapse(s[RunEnd(s, 0)..])
    else [s[0]] + Collapse(s[1..])
  }

  /** `compact_whitespace`: trim, then one space for every whitespace run. */
  function CompactWhitespace(s: string): string {
    Collapse(RustTrim(s))
  }

  /** Text in normal form: every whitespace character is a single space
      between two non-whitespace characters. */
  predicate Compact(t: string) {
    forall i :: 0 <= i < |t| && RustIsSpace(t[i]) ==>
      t[i] == ' ' && 0 < i && i + 1 < |t| && !RustIsSpace(t[i + 1])
  }

  /** Every whitespace character is a single space followed by
      non-whitespace. */
  predicate SingleSpaced(r: string) {
    forall i :: 0 <= i < |r| && RustIsSpace(r[i]) ==>
      r[i] == ' ' && (i + 1 < |r| ==> !RustIsSpace(r[i + 1]))
  }

  /** Collapsing keeps the text nonempty and keeps a first character that
      is not whitespace. */
  lemma CollapseFirst(s: string)
    ensures Collapse(s) == [] <==> s == []
    ensures s != [] && !RustIsSpace(s[0]) ==> Collapse(s)[0] == s[0]
  {
  }

  /** Collapsing keeps a last character that is not whitespace. */
  lemma {:induction false} CollapseLast(s: string)
    requires s != [] && !RustIsSpace(s[|s| - 1])
    ensures Collapse(s) != [] && Collapse(s)[|Collapse(s)| - 1] == s[|s| - 1]
    decreases |s|
  {
    var t := if RustIsSpace(s[0]) then s[RunEnd(s, 0)..] else s[1..];
    assert Collapse(s) == [if RustIsSpace(s[0]) then ' ' else s[0]] + Collapse(t);
    if t != [] {
      assert t[|t| - 1] == s[|s| - 1];
      CollapseLast(t);
    }
  }

  lemma SingleSpacedCons(c: char, u: string)
    requires SingleSpaced(u)
    requires RustIsSpace(c) ==> c == ' ' && (u != [] ==> !RustIsSpace(u[0]))
    ensures SingleSpaced([c] + u)
  {
    var r := [c] + u;
    forall i | 0 <= i < |r| && RustIsSpace(r[i])
      ensures r[i] == ' ' && (i + 1 < |r| ==> !RustIsSpace(r[i + 1]))
    {
      if i > 0 {
        assert r[i] == u[i - 1];
      }
      if i + 1 < |r| {
        assert r[i + 1] == u[i];
      }
    }
  }

  /** Collapsing leaves no two whitespace characters side by side. */
  lemma {:induction false} CollapseSingleSpaced(s: string)
    ensures SingleSpaced(Collapse(s))
    decreases |s|
  {
    if s != [] {
      if RustIsSpace(s[0]) {
        var t := s[RunEnd(s, 0)..];
        CollapseSingleSpaced(t);
        CollapseFirst(t);
        SingleSpacedCons(' ', Collapse(t));
      } else {
        var t := s[1..];
        CollapseSingleSpaced(t);
        SingleSpacedCons(s[0], Collapse(t));
      }
    }
  }

  /** Collapsing keeps the first and last characters when they are not
      whitespace, and leaves no two whitespace characters side by side. */
  lemma CollapseFacts(s: string)
    ensures Collapse(s) == [] <==> s == []
    ensures s != [] && !RustIsSpace(s[0]) ==> Collapse(s)[0] == s[0]
    ensures s != [] && !RustIsSpace(s[|s| - 1]) ==>
      Collapse(s)[|Collapse(s)| - 1] == s[|s| - 1]
    ensures SingleSpaced(Collapse(s))
  {
    CollapseFirst(s);
    if s != [] && !RustIsSpace(s[|s| - 1]) {
      CollapseLast(s);
    }
    CollapseSingleSpaced(s);
  }

  /** Text in normal form is left alone by collapsing. */
  lemma {:induction false} CollapseCompact(t: string)
    requires forall i :: 0 <= i < |t| && RustIsSpace(t[i]) ==>
      t[i] == ' ' && i + 1 < |t| && !RustIsSpace(t[i + 1])
    ensures Collapse(t) == t
    decreases |t|
  {
    if t != [] {
      var u := t[1..];
      assert forall i :: 0 <= i < |u| ==> u[i] == t[i + 1];
      CollapseCompact(u);
      if RustIsSpace(t[0]) {
        assert RunEnd(t, 0) == 1 by {
          assert RunEnd(t, 1) == 1;
        }
      }
    }
  }

  /** The output of `compact_whitespace` is in normal form: no whitespace
      at either end and every whitespace run a single space. */
  lemma CompactWhitespaceCompact(s: string)
    ensures Compact(CompactWhitespace(s))
  {
    var t := RustTrim(s);
    CollapseFacts(t);
  }

  /** Compacting twice is compacting once. */
  lemma CompactWhitespaceIdempotent(s: string)
    ensures CompactWhitespace(CompactWhitespace(s)) == CompactWhitespace(s)
  {
    var c := CompactWhitespace(s);
    CompactWhitespaceCompact(s);
    assert RustTrimStart(c) == c;
    assert RustTrimEnd(c) == c;
    CollapseCompact(c);
  }

  predicate NotSpace(c: char) { !RustIsSpace(c) }

  /** Collapsing keeps every non-whitespace character, in order. */
  lemma {:induction false} CollapseKeepsText(s: string)
    ensures Filter(Collapse(s), NotSpace) == Filter(s, NotSpace)
    decreases |s|
  {
    if s != [] {
      if RustIsSpace(s[0]) {
        var e := RunEnd(s, 0);
        CollapseKeepsText(s[e..]);
        SpacesFiltered(s[..e]);
        assert s == s[..e] + s[e..];
        FilterAppend(s[..e], s[e..], NotSpace);
        FilterAppend(" ", Collapse(s[e..]), NotSpace);
      } else {
        CollapseKeepsText(s[1..]);
        assert s == [s[0]] + s[1..];
        FilterAppend([s[0]], s[1..], NotSpace);
        FilterAppend([s[0]], Collapse(s[1..]), NotSpace);
      }
    }
  }

  lemma {:induction false} SpacesFiltered(w: string)
    requires forall k :: 0 <= k < |w| ==> RustIsSpace(w[k])
    ensures Filter(w, NotSpace) == []
    decreases |w|
  {
    if w != [] {
      SpacesFiltered(w[1..]);
    }
  }

  // ---------------------------------------------------------------------
  // Comments

  /** Index of the end of the line containing `i`: the next newline, or the
      end of the text. */
  function LineEnd(s: string, i: nat): (j: nat)
    requires i <= |s|
    ensures i <= j <= |s| && (j == |s| || s[j] == '\n')
    ensures forall k :: i <= k < j ==> s[k] != '\n'
    decreases |s| - i
  {
    if i == |s| || s[i] == '\n' then i else LineEnd(s, i + 1)
  }

  /** The two characters `a` and `b` start at index `i`. */
  predicate PairAt(s: string, i: nat, a: char, b: char) {
    i + 1 < |s| && s[i] == a && s[i + 1] == b
  }

  /** The first index from `i` on where `a` and `b` start. */
  function FirstPair(s: string, i: nat, a: char, b: char): (r: Option<nat>)
    ensures r.Some? ==> i <= r.value && PairAt(s, r.value, a, b)
    ensures r.Some? ==> forall j :: i <= j < r.value ==> !PairAt(s, j, a, b)
    ensures r.None? ==> forall j :: i <= j ==> !PairAt(s, j, a, b)
    decreases |s| - i
  {
    if i + 1 >= |s| then None
    else if PairAt(s, i, a, b) then Some(i)
    else FirstPair(s, i + 1, a, b)
  }

  /** The pass that replaces every match of `//.*` by nothing: from each
      leftmost pair of slashes to the end of its line (the newline stays). */
  function StripLineComments(s: string): string
    decreases |s|
  {
    if s == [] then []
    else if PairAt(s, 0, '/', '/') then StripLineComments(s[LineEnd(s, 0)..])
    else [s[0]] + StripLineComments(s[1..])
  }

  /** The pass that removes every block comment, each running from its
      opening slash and star to the first star and slash after them (the
      pattern has no nesting). */
  function StripBlockComments(s: string): string
    decreases |s|
  {
    if s == [] then []
    else if PairAt(s, 0, '/', '*') && FirstPair(s, 2, '*', '/').Some? then
      StripBlockComments(s[FirstPair(s, 2, '*', '/').value + 2..])
    else [s[0]] + StripBlockComments(s[1..])
  }

  /** `strip_comments`: the line pass, then the block pass. */
  function StripComments(s: string): string {
    StripBlockComments(StripLineComments(s))
  }

  /** One line cut before its first pair of slashes. */
  function CutLine(l: string): string {
    match FirstPair(l, 0, '/', '/')
    case None => l
    case Some(k) => l[..k]
  }

  function CutLines(lines: seq<string>): (r: seq<string>)
    ensures |r| == |lines|
  {
    seq(|lines|, i requires 0 <= i < |lines| => CutLine(lines[i]))
  }

  /** Searching from `i + 1` is searching the tail from `i`. */
  lemma {:induction false} FirstPairTail(s: string, i: nat, a: char, b: char)
    requires s != []
    ensures FirstPair(s, i + 1, a, b).None? <==> FirstPair(s[1..], i, a, b).None?
    ensures FirstPair(s, i + 1, a, b).Some? ==>
      FirstPair(s, i + 1, a, b).value == FirstPair(s[1..], i, a, b).value + 1
    decreases |s| - i
  {
    if i + 2 < |s| {
      assert PairAt(s, i + 1, a, b) == PairAt(s[1..], i, a, b);
      FirstPairTail(s, i + 1, a, b);
    }
  }

  /** Cutting a line that does not start with two slashes keeps its first
      character. */
  lemma CutLineStep(l: string)
    requires l != [] && !PairAt(l, 0, '/', '/')
    ensures CutLine(l) == [l[0]] + CutLine(l[1..])
  {
    FirstPairTail(l, 0, '/', '/');
    if FirstPair(l, 0, '/', '/').Some? {
      var k := FirstPair(l, 0, '/', '/').value;
      assert l[..k] == [l[0]] + l[1..][..k - 1];
    }
  }

  /** Within one line the pass cuts the line before its first pair of
      slashes. */
  lemma {:induction false} StripLineCommentsInLine(l: string, rest: string)
    requires '\n' !in l
    requires rest == [] || rest[0] == '\n'
    ensures StripLineComments(l + rest) == CutLine(l) + StripLineComments(rest)
    decreases |l|
  {
    var s := l + rest;
    if l == [] {
      assert s == rest;
    } else if PairAt(l, 0, '/', '/') {
      assert PairAt(s, 0, '/', '/');
      var e := LineEnd(s, 0);
      assert e == |l| by {
        LineEndFrom(s, 0, |l|);
      }
      assert s[e..] == rest;
    } else {
      assert !PairAt(s, 0, '/', '/') by {
        if |l| == 1 && rest != [] { assert s[1] == rest[0]; }
      }
      assert s[1..] == l[1..] + rest;
      StripLineCommentsInLine(l[1..], rest);
      CutLineStep(l);
    }
  }

  lemma {:induction false} LineEndFrom(s: string, i: nat, j: nat)
    requires i <= j <= |s| && (j == |s| || s[j] == '\n')
    requires forall k :: i <= k < j ==> s[k] != '\n'
    ensures LineEnd(s, i) == j
    decreases j - i
  {
    if i < j {
      LineEndFrom(s, i + 1, j);
    }
  }

  /** One line, then a newline and the rest: the line is cut and the
      newline kept. */
  lemma StripLineCommentsStep(l: string, rest: string, cutRest: string)
    requires '\n' !in l && StripLineComments(rest) == cutRest
    ensures StripLineComments(l + ("\n" + rest)) == CutLine(l) + ("\n" + cutRest)
  {
    var nl := "\n" + rest;
    StripLineCommentsInLine(l, nl);
    assert !PairAt(nl, 0, '/', '/');
    assert nl[1..] == rest;
  }

  /** Line by line: removing line comments from lines joined with newlines
      cuts each line before its first pair of slashes and keeps every
      newline. */
  lemma {:induction false} StripLineCommentsByLine(lines: seq<string>)
    requires lines != []
    requires forall i :: 0 <= i < |lines| ==> '\n' !in lines[i]
    ensures StripLineComments(Join(lines, "\n")) == Join(CutLines(lines), "\n")
    decreases |lines|
  {
    if |lines| == 1 {
      StripLineCommentsInLine(lines[0], []);
      assert lines[0] + [] == lines[0];
    } else {
      var tail := lines[1..];
      StripLineCommentsByLine(tail);
      var cut := CutLines(lines);
      assert cut[1..] == CutLines(tail);
      StripLineCommentsStep(lines[0], Join(tail, "\n"), Join(CutLines(tail), "\n"));
      assert Join(lines, "\n") == lines[0] + ("\n" + Join(tail, "\n"));
      assert Join(cut, "\n") == cut[0] + ("\n" + Join(cut[1..], "\n"));
    }
  }

  /** Text without any slash is left unchanged by both passes. */
  lemma {:induction false} NoSlashUnchanged(s: string)
    requires '/' !in s
    ensures StripLineComments(s) == s && StripBlockComments(s) == s
    decreases |s|
  {
    if s != [] {
      assert s[0] != '/';
      NoSlashUnchanged(s[1..]);
      assert s == [s[0]] + s[1..];
    }
  }

  /** A text with no two slashes side by side has no line comment. */
  lemma {:induction false} NoLineComment(s: string)
    requires forall i: nat :: !PairAt(s, i, '/', '/')
    ensures StripLineComments(s) == s
    decreases |s|
  {
    if s != [] {
      assert !PairAt(s, 0, '/', '/');
      var t := s[1..];
      forall i: nat ensures !PairAt(t, i, '/', '/') {
        assert PairAt(t, i, '/', '/') ==> PairAt(s, i + 1, '/', '/');
      }
      NoLineComment(t);
      assert s == [s[0]] + t;
    }
  }

  /** Slash-free code around a block comment whose body holds neither a
      star nor a slash: the comment and nothing else disappears. */
  lemma BlockCommentRemoved(a: string, body: string, b: string)
    requires '/' !in a && '/' !in b && '/' !in body && '*' !in body
    ensures StripComments(a + "/*" + body + "*/" + b) == a + b
  {
    var s := a + "/*" + body + "*/" + b;
    forall i: nat ensures !PairAt(s, i, '/', '/') {
      if i + 1 < |s| {
        if i < |a| {
          assert s[i] == a[i];
        } else if i == |a| {
          assert s[i + 1] == '*';
        } else if i < |a| + 2 + |body| {
          assert s[i + 1] == '*' || s[i + 1] == body[i - |a| - 1];
        } else if i == |a| + 2 + |body| {
          assert s[i] == '*';
        } else {
          assert s[i + 1] == b[i + 1 - |a| - 4 - |body|];
        }
      }
    }
    NoLineComment(s);
    BlockPass(a, body, b);
  }

  lemma {:induction false} BlockPass(a: string, body: string, b: string)
    requires '/' !in a && '/' !in b && '/' !in body && '*' !in body
    ensures StripBlockComments(a + "/*" + body + "*/" + b) == a + b
    decreases |a|
  {
    var s := a + "/*" + body + "*/" + b;
    if a != [] {
      assert s[0] == a[0] && s[0] != '/';
      assert s[1..] == a[1..] + "/*" + body + "*/" + b;
      BlockPass(a[1..], body, b);
      assert a == [a[0]] + a[1..];
    } else {
      assert s == "/*" + body + "*/" + b;
      var close := 2 + |body|;
      assert PairAt(s, close, '*', '/');
      forall j | 2 <= j < close ensures !PairAt(s, j, '*', '/') {
        assert s[j] == body[j - 2];
      }
      FirstPairAt(s, 2, close, '*', '/');
      assert s[close + 2..] == b;
      NoSlashUnchanged(b);
    }
  }

  lemma {:induction false} FirstPairAt(s: string, i: nat, at: nat, a: char, b: char)
    requires i <= at && PairAt(s, at, a, b)
    requires forall j :: i <= j < at ==> !PairAt(s, j, a, b)
    ensures FirstPair(s, i, a, b) == Some(at)
    decreases at - i
  {
    if i < at {
      FirstPairAt(s, i + 1, at, a, b);
    }
  }

  // ---------------------------------------------------------------------
  // Identifier lists and spans

  /** The identifiers, each once in first-occurrence order, separated by
      single spaces. */
  function CollectIdents(idents: seq<string>): string {
    Join(Dedup(idents), " ")
  }

  /** The order-preserving de-duplication, with the set of those seen. */
  method DedupIdents(idents: seq<string>) returns (kept: seq<string>)
    ensures kept == Dedup(idents)
    ensures NoDuplicates(kept) && (set x | x in kept) == (set x | x in idents)
  {
    var seen: set<string> := {};
    kept := [];
    for i := 0 to |idents|
      invariant kept == Dedup(idents[..i])
      invariant seen == set x | x in kept
    {
      DedupAppend(idents[..i], idents[i]);
      assert idents[..i + 1] == idents[..i] + [idents[i]];
      if idents[i] !in seen {
        seen := seen + {idents[i]};
        kept := kept + [idents[i]];
      }
    }
    assert idents[..|idents|] == idents;
    DedupProps(idents);
  }

  datatype Position = Position(line: nat, column: nat)

  /** Start and end of a span, when both lie on a real (1-based) line. */
  function SpanStartEnd(start: Position, end: Position): (r: Option<(Position, Position)>)
    ensures r.Some? <==> start.line > 0 && end.line > 0
    ensures r.Some? ==> r.value == (start, end)
  {
    if start.line > 0 && end.line > 0 then Some((start, end)) else None
  }
}
