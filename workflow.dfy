// The context collector and file resolver of the workflow: which project
// files are relevant to a set of identifiers, which snippets are cut out of
// them, and which project file a diff refers to. The file tree is given as a
// list of (path, content) entries; an unreadable file has no content.

module Workflow {
  import opened Common
  import opened DiffParser


  // ---------------------------------------------------------------------
  // File relevance

  /** A file is relevant when some identifier occurs in it, ignoring case,
      or when some identifier longer than three characters has an
      underscore-separated part that occurs in it. */
  predicate IsRelevantFile(content: string, ids: set<string>) {
    var low := Lower(content);
    (exists id :: id in ids && Contains(low, Lower(id))) ||
    (exists id :: id in ids && |id| > 3 &&
       exists part :: part in Split(Lower(id), '_') && Contains(low, part))
  }

  lemma LowerKeepsOccurrence(s: string, sub: string, i: int)
    requires OccursAt(s, sub, i)
    ensures OccursAt(Lower(s), Lower(sub), i)
  {
    assert Lower(s)[i..i + |sub|] == Lower(sub);
  }

  /** A case-sensitive occurrence of an identifier makes the file relevant. */
  lemma OccurrenceIsRelevant(content: string, ids: set<string>, id: string)
    requires id in ids && Contains(content, id)
    ensures IsRelevantFile(content, ids)
  {
    var i :| 0 <= i <= |content| && OccursAt(content, id, i);
    LowerKeepsOccurrence(content, id, i);
  }

  /** An identifier with an empty underscore part (a leading, trailing or
      doubled underscore) makes every file relevant. */
  predicate HasEmptyPart(id: string) {
    |id| > 0 &&
    (id[0] == '_' || id[|id| - 1] == '_' ||
     exists i :: 0 <= i < |id| - 1 && id[i] == '_' && id[i + 1] == '_')
  }

  lemma EmptyPartIsRelevant(content: string, ids: set<string>, id: string)
    requires id in ids && |id| > 3 && HasEmptyPart(id)
    ensures IsRelevantFile(content, ids)
  {
    var low := Lower(id);
    SplitEmptyParts(low, '_');
    var parts := Split(low, '_');
    if id[0] == '_' {
      assert parts[0] == "";
    } else if id[|id| - 1] == '_' {
      assert low[|id| - 1] == '_';
      assert "" in parts[1..];
    } else {
      var i :| 0 <= i < |id| - 1 && id[i] == '_' && id[i + 1] == '_';
      assert low[i] == '_' && low[i + 1] == '_';
      assert "" in parts[1..];
    }
    assert "" in parts;
    assert OccursAt(Lower(content), "", 0);
  }

  // ---------------------------------------------------------------------
  // Line windows

  /** Some identifier occurs in the line, case-sensitively. */
  predicate Mentions(line: string, ids: set<string>) {
    exists id :: id in ids && Contains(line, id)
  }

  /** The lines from two before line `i` to two after it, clamped. */
  function Around(lines: seq<string>, i: nat): (r: seq<string>)
    requires i < |lines|
    ensures Min(i, 2) < |r| <= 5 && r[Min(i, 2)] == lines[i]
  {
    lines[Max(0, i - 2)..Min(|lines|, i + 3)]
  }

  function WindowSnippet(lines: seq<string>, i: nat, name: string): string
    requires i < |lines|
  {
    "From " + name + ":\n" + Join(Around(lines, i), "\n")
  }

  /** The window snippets of the first `n` lines, before de-duplication. */
  function Windows(lines: seq<string>, ids: set<string>, name: string, n: nat): seq<string>
    requires n <= |lines|
  {
    if n == 0 then []
    else Windows(lines, ids, name, n - 1)
         + (if Mentions(lines[n - 1], ids) then [WindowSnippet(lines, n - 1, name)] else [])
  }

  // ---------------------------------------------------------------------
  // Declarations: the struct, impl and fn patterns, anchored at line starts
  // (`^(pub\s+)?struct\s+(\w+)`, `^impl(?:\s*<[^>]*>)?\s+(\w+)` and
  // `^(?:pub\s+)?fn\s+(\w+)`, with `\s` and `\w` on ASCII)

  datatype DeclKind = StructDecl | ImplDecl | FnDecl

  function KindName(kind: DeclKind): string {
    match kind
    case StructDecl => "struct"
    case ImplDecl => "impl"
    case FnDecl => "fn"
  }

  /** A match: where it starts and ends, and its groups. The struct pattern
      has two groups (the optional `pub` prefix and the name); the other two
      have only the name, as group 1. */
  datatype Decl = Decl(start: nat, end: nat, group1: Option<string>, group2: Option<string>)

  /** `\s+(\w+)` at `i`: the whitespace run must be followed by a word
      character (backing off the greedy `\s+` cannot help), and the name
      runs to the end of the word. */
  function SpacedWord(s: string, i: nat): (r: Option<(nat, string)>)
    requires i <= |s|
    ensures r.Some? ==> i < r.value.0 <= |s| && |r.value.1| > 0
    ensures r.Some? ==> forall k :: 0 <= k < |r.value.1| ==> IsWordChar(r.value.1[k])
  {
    var w := SpaceEnd(s, i);
    if w > i && w < |s| && IsWordChar(s[w]) then
      var e := WordEnd(s, w);
      Some((e, s[w..e]))
    else None
  }

  /** `pub\s+` at `p`: where the keyword after it starts. */
  function PubPrefix(s: string, p: nat): (r: Option<nat>)
    requires p <= |s|
    ensures r.Some? ==> p + 3 < r.value <= |s|
  {
    if OccursAt(s, "pub", p) && SpaceEnd(s, p + 3) > p + 3 then Some(SpaceEnd(s, p + 3)) else None
  }

  /** `keyword\s+(\w+)` at `q`. */
  function KeywordName(s: string, keyword: string, q: nat): (r: Option<(nat, string)>)
    requires q <= |s|
    ensures r.Some? ==> q < r.value.0 <= |s|
  {
    if OccursAt(s, keyword, q) then SpacedWord(s, q + |keyword|) else None
  }

  function MatchStruct(s: string, p: nat): (r: Option<Decl>)
    requires p <= |s|
    ensures r.Some? ==> r.value.start == p < r.value.end <= |s|
  {
    var pub := PubPrefix(s, p);
    var withPub := if pub.Some? then KeywordName(s, "struct", pub.value) else None;
    if withPub.Some? then
      Some(Decl(p, withPub.value.0, Some(s[p..pub.value]), Some(withPub.value.1)))
    else
      match KeywordName(s, "struct", p)
      case Some(found) => Some(Decl(p, found.0, None, Some(found.1)))
      case None => None
  }

  function MatchImpl(s: string, p: nat): (r: Option<Decl>)
    requires p <= |s|
    ensures r.Some? ==> r.value.start == p < r.value.end <= |s|
  {
    if !OccursAt(s, "impl", p) then None
    else
      var q := p + 4;
      var g := SpaceEnd(s, q);
      var close := if g < |s| && s[g] == '<' then FindFrom(s, ">", g + 1) else None;
      var generic := if close.Some? then SpacedWord(s, close.value + 1) else None;
      if generic.Some? then Some(Decl(p, generic.value.0, Some(generic.value.1), None))
      else
        match SpacedWord(s, q)
        case Some(found) => Some(Decl(p, found.0, Some(found.1), None))
        case None => None
  }

  function MatchFn(s: string, p: nat): (r: Option<Decl>)
    requires p <= |s|
    ensures r.Some? ==> r.value.start == p < r.value.end <= |s|
  {
    var pub := PubPrefix(s, p);
    var withPub := if pub.Some? then KeywordName(s, "fn", pub.value) else None;
    if withPub.Some? then Some(Decl(p, withPub.value.0, Some(withPub.value.1), None))
    else
      match KeywordName(s, "fn", p)
      case Some(found) => Some(Decl(p, found.0, Some(found.1), None))
      case None => None
  }

  function MatchAt(kind: DeclKind, s: string, p: nat): (r: Option<Decl>)
    requires p <= |s|
    ensures r.Some? ==> r.value.start == p < r.value.end <= |s|
  {
    match kind
    case StructDecl => MatchStruct(s, p)
    case ImplDecl => MatchImpl(s, p)
    case FnDecl => MatchFn(s, p)
  }

  /** A declared name: a nonempty run of word characters. */
  predicate IsName(name: string) {
    |name| > 0 && forall k :: 0 <= k < |name| ==> IsWordChar(name[k])
  }

  /** What may follow a name: nothing, or a character that ends the word. */
  predicate EndsWord(rest: string) {
    rest == [] || !IsWordChar(rest[0])
  }

  lemma SpacedWordOf(pre: string, name: string, rest: string)
    requires IsName(name) && EndsWord(rest)
    ensures var s := pre + " " + name + rest;
      SpacedWord(s, |pre|) == Some((|pre| + 1 + |name|, name))
  {
    var s := pre + " " + name + rest;
    var i := |pre|;
    assert s[i] == ' ' && s[i + 1] == name[0];
    assert SpaceEnd(s, i + 1) == i + 1;
    forall k | i + 1 <= k < i + 1 + |name| ensures IsWordChar(s[k]) {
      assert s[k] == name[k - i - 1];
    }
    if rest != [] {
      assert s[i + 1 + |name|] == rest[0];
    }
    WordEndAt(s, i + 1, i + 1 + |name|);
    assert s[i + 1..i + 1 + |name|] == name;
  }

  /** `struct Name` and `pub struct Name` at a line start are recognised,
      with the `pub ` prefix as the first group. */
  lemma StructRecognized(pub: bool, name: string, rest: string)
    requires IsName(name) && EndsWord(rest)
    ensures var prefix := if pub then "pub " else "";
      var s := prefix + "struct" + " " + name + rest;
      MatchStruct(s, 0) == Some(Decl(0, |prefix| + 7 + |name|, if pub then Some("pub ") else None, Some(name)))
  {
    var prefix := if pub then "pub " else "";
    var s := prefix + "struct" + " " + name + rest;
    SpacedWordOf(prefix + "struct", name, rest);
    assert s == (prefix + "struct") + " " + name + rest;
    assert OccursAt(s, "struct", |prefix|) by {
      assert s[|prefix|..|prefix| + 6] == "struct";
    }
    if pub {
      assert OccursAt(s, "pub", 0) by { assert s[..3] == "pub"; }
      assert SpaceEnd(s, 4) == 4;
      assert s[..4] == "pub ";
    } else {
      assert !OccursAt(s, "pub", 0) by { assert s[0] == 's'; }
    }
  }

  /** `fn name` and `pub fn name` at a line start are recognised; the name
      is group 1. */
  lemma FnRecognized(pub: bool, name: string, rest: string)
    requires IsName(name) && EndsWord(rest)
    ensures var prefix := if pub then "pub " else "";
      var s := prefix + "fn" + " " + name + rest;
      MatchFn(s, 0) == Some(Decl(0, |prefix| + 3 + |name|, Some(name), None))
  {
    var prefix := if pub then "pub " else "";
    var s := prefix + "fn" + " " + name + rest;
    SpacedWordOf(prefix + "fn", name, rest);
    assert s == (prefix + "fn") + " " + name + rest;
    assert OccursAt(s, "fn", |prefix|) by {
      assert s[|prefix|..|prefix| + 2] == "fn";
    }
    if pub {
      assert OccursAt(s, "pub", 0) by { assert s[..3] == "pub"; }
      assert SpaceEnd(s, 4) == 4;
    } else {
      assert !OccursAt(s, "pub", 0) by { assert s[0] == 'f'; }
    }
  }

  /** `impl Name` at a line start is recognised; the name is group 1. */
  lemma ImplRecognized(name: string, rest: string)
    requires IsName(name) && EndsWord(rest)
    ensures MatchImpl("impl" + " " + name + rest, 0) == Some(Decl(0, 5 + |name|, Some(name), None))
  {
    var s := "impl" + " " + name + rest;
    SpacedWordOf("impl", name, rest);
    assert OccursAt(s, "impl", 0) by { assert s[..4] == "impl"; }
    assert s[4] == ' ' && s[5] == name[0];
    assert SpaceEnd(s, 5) == 5;
  }

  /** `impl<params> Name` is recognised too: the name after the generic
      parameters is group 1. */
  lemma GenericImplRecognized(params: string, name: string, rest: string)
    requires IsName(name) && EndsWord(rest) && '>' !in params
    ensures var s := "impl" + ("<" + params + ">") + " " + name + rest;
      MatchImpl(s, 0) == Some(Decl(0, 7 + |params| + |name|, Some(name), None))
  {
    var generic := "<" + params + ">";
    var s := "impl" + generic + " " + name + rest;
    SpacedWordOf("impl" + generic, name, rest);
    assert OccursAt(s, "impl", 0) by { assert s[..4] == "impl"; }
    assert s[4] == '<';
    assert SpaceEnd(s, 4) == 4;
    var close := 5 + |params|;
    assert s[close] == '>';
    forall j | 5 <= j < close ensures s[j] != '>' {
      assert s[j] == params[j - 5];
    }
    FindCharAt(s, '>', 5, close);
  }

  predicate LineStart(s: string, p: nat) {
    p == 0 || (p <= |s| && s[p - 1] == '\n')
  }

  /** `finditer` from `p`: the next match starts at the first line start
      where the pattern matches, and the search resumes at its end. */
  function DeclsFrom(kind: DeclKind, s: string, p: nat): (r: seq<Decl>)
    requires p <= |s|
    ensures forall k :: 0 <= k < |r| ==> p <= r[k].start < r[k].end <= |s| && LineStart(s, r[k].start)
    ensures forall k :: 0 <= k < |r| - 1 ==> r[k].end <= r[k + 1].start
    decreases |s| - p
  {
    if p == |s| then []
    else
      var m := if LineStart(s, p) then MatchAt(kind, s, p) else None;
      if m.Some? then [m.value] + DeclsFrom(kind, s, m.value.end)
      else DeclsFrom(kind, s, p + 1)
  }

  /** The identifier test on a match: group 1, or group 2 when there is one. */
  predicate Selected(d: Decl, ids: set<string>) {
    (d.group1.Some? && d.group1.value in ids) || (d.group2.Some? && d.group2.value in ids)
  }

  // ---------------------------------------------------------------------
  // Blocks: from a declaration's line, up to 20 lines, ending where the
  // brace count drops to zero or below once a `{` has been seen

  const MaxBlockLines := 20

  datatype Braces = Braces(count: int, open: bool)

  /** One line of the count: its `{`s are added when it has any, and once a
      `{` has been seen its `}`s are subtracted. */
  function BraceStep(b: Braces, line: string): Braces {
    var open := b.open || '{' in line;
    var added := if '{' in line then b.count + CountChar(line, '{') else b.count;
    Braces(if open then added - CountChar(line, '}') else added, open)
  }

  function Tally(block: seq<string>): Braces
    decreases |block|
  {
    if block == [] then Braces(0, false)
    else BraceStep(Tally(block[..|block| - 1]), block[|block| - 1])
  }

  predicate Closed(b: Braces) {
    b.open && b.count <= 0
  }

  /** Where the block that starts at `start` ends, looking from line `j` on. */
  function BlockEnd(lines: seq<string>, start: nat, j: nat, limit: nat): (e: nat)
    requires start <= j <= limit <= |lines|
    ensures j <= e <= limit
    decreases limit - j
  {
    if j == limit then limit
    else if Closed(Tally(lines[start..j + 1])) then j + 1
    else BlockEnd(lines, start, j + 1, limit)
  }

  function BlockLimit(lines: seq<string>, start: nat): nat {
    Min(start + MaxBlockLines, |lines|)
  }

  function BlockOf(lines: seq<string>, start: nat): seq<string> {
    if start < |lines| then lines[start..BlockEnd(lines, start, start, BlockLimit(lines, start))]
    else []
  }

  lemma {:induction false} BlockEndFacts(lines: seq<string>, start: nat, j: nat, limit: nat)
    requires start <= j <= limit <= |lines|
    ensures var e := BlockEnd(lines, start, j, limit);
      (j < limit ==> j < e) &&
      (forall k :: j < k < e ==> !Closed(Tally(lines[start..k]))) &&
      (e < limit ==> Closed(Tally(lines[start..e])))
    decreases limit - j
  {
    if j < limit && !Closed(Tally(lines[start..j + 1])) {
      BlockEndFacts(lines, start, j + 1, limit);
    }
  }

  /** The block is the shortest run of lines from `start` whose count has
      closed, or the whole window of at most 20 lines (clamped to the end of
      the file) when none closes. */
  lemma BlockOfShape(lines: seq<string>, start: nat)
    requires start < |lines|
    ensures var b := BlockOf(lines, start);
      1 <= |b| <= MaxBlockLines && start + |b| <= |lines| && b == lines[start..start + |b|] &&
      (forall k :: 0 < k < |b| ==> !Closed(Tally(b[..k]))) &&
      (start + |b| < BlockLimit(lines, start) ==> Closed(Tally(b)))
  {
    var limit := BlockLimit(lines, start);
    var e := BlockEnd(lines, start, start, limit);
    var b := BlockOf(lines, start);
    BlockEndFacts(lines, start, start, limit);
    forall k | 0 < k < |b| ensures !Closed(Tally(b[..k])) {
      assert b[..k] == lines[start..start + k];
    }
  }

  lemma BlockStep(lines: seq<string>, start: nat, i: nat, limit: nat)
    requires start <= i < limit <= |lines|
    ensures lines[start..i] + [lines[i]] == lines[start..i + 1]
    ensures Tally(lines[start..i + 1]) == BraceStep(Tally(lines[start..i]), lines[i])
    ensures BlockEnd(lines, start, i, limit)
         == if Closed(Tally(lines[start..i + 1])) then i + 1 else BlockEnd(lines, start, i + 1, limit)
  {
    assert lines[start..i + 1][..i - start] == lines[start..i];
  }

  /** The block loop: lines are taken one at a time, counting braces, and
      the loop stops after the line where the count closes. */
  method BlockLines(lines: seq<string>, start: nat) returns (block: seq<string>)
    ensures block == BlockOf(lines, start)
  {
    var braceCount := 0;
    var foundOpening := false;
    block := [];
    var limit := Min(start + MaxBlockLines, |lines|);
    if start >= limit {
      return;
    }
    var i := start;
    while i < limit
      invariant start <= i <= limit
      invariant block == lines[start..i]
      invariant Braces(braceCount, foundOpening) == Tally(block)
      invariant BlockEnd(lines, start, start, limit) == BlockEnd(lines, start, i, limit)
    {
      var line := lines[i];
      BlockStep(lines, start, i, limit);
      block := block + [line];
      if '{' in line {
        foundOpening := true;
        braceCount := braceCount + CountChar(line, '{');
      }
      if foundOpening {
        braceCount := braceCount - CountChar(line, '}');
        assert Braces(braceCount, foundOpening) == Tally(block);
        if braceCount <= 0 {
          return;
        }
      }
      i := i + 1;
    }
  }

  // ---------------------------------------------------------------------
  // The snippets of one file

  function BlockSnippet(kind: DeclKind, name: string, block: seq<string>): string {
    "From " + name + " (" + KindName(kind) + " block):\n" + Join(block, "\n")
  }

  /** The index of the line a match starts on. */
  function LineOf(content: string, d: Decl): nat
    requires d.start <= |content|
  {
    CountChar(content[..d.start], '\n')
  }

  predicate InContent(content: string, ds: seq<Decl>) {
    forall k :: 0 <= k < |ds| ==> ds[k].start <= |content|
  }

  /** The block snippets of the selected matches, before de-duplication. */
  function BlockSnippets(kind: DeclKind, content: string, ids: set<string>, name: string,
                         ds: seq<Decl>): seq<string>
    requires InContent(content, ds)
    decreases |ds|
  {
    if ds == [] then []
    else
      var d := ds[|ds| - 1];
      var block := BlockOf(Split(content, '\n'), LineOf(content, d));
      BlockSnippets(kind, content, ids, name, ds[..|ds| - 1])
      + (if Selected(d, ids) && block != [] then [BlockSnippet(kind, name, block)] else [])
  }

  function KindSnippets(kind: DeclKind, content: string, ids: set<string>, name: string): seq<string> {
    BlockSnippets(kind, content, ids, name, DeclsFrom(kind, content, 0))
  }

  /** Every candidate snippet in order: all line windows, then the struct,
      impl and fn blocks. */
  function Candidates(content: string, ids: set<string>, path: string): seq<string> {
    var lines := Split(content, '\n');
    var name := BaseName(path);
    Windows(lines, ids, name, |lines|)
    + KindSnippets(StructDecl, content, ids, name)
    + KindSnippets(ImplDecl, content, ids, name)
    + KindSnippets(FnDecl, content, ids, name)
  }

  /** A snippet is kept only if the same text was not kept before. */
  function Snippets(content: string, ids: set<string>, path: string): seq<string> {
    Dedup(Candidates(content, ids, path))
  }

  /** One file's snippets are distinct, and are exactly its candidates. */
  lemma SnippetsDistinct(content: string, ids: set<string>, path: string)
    ensures NoDuplicates(Snippets(content, ids, path))
    ensures (set x | x in Snippets(content, ids, path)) == (set x | x in Candidates(content, ids, path))
  {
    DedupProps(Candidates(content, ids, path));
  }

  /** A match always starts on a line of the file, so its block is never
      empty. */
  lemma DeclLineInFile(content: string, d: Decl)
    requires d.start <= |content|
    ensures LineOf(content, d) < |Split(content, '\n')|
    ensures BlockOf(Split(content, '\n'), LineOf(content, d)) != []
  {
    CountCharAppend(content[..d.start], content[d.start..], '\n');
    assert content[..d.start] + content[d.start..] == content;
    BlockOfShape(Split(content, '\n'), LineOf(content, d));
  }

  lemma WindowsStep(lines: seq<string>, ids: set<string>, name: string, i: nat)
    requires i < |lines|
    ensures Mentions(lines[i], ids) ==>
      Windows(lines, ids, name, i + 1) == Windows(lines, ids, name, i) + [WindowSnippet(lines, i, name)]
    ensures !Mentions(lines[i], ids) ==> Windows(lines, ids, name, i + 1) == Windows(lines, ids, name, i)
  {
    assert Windows(lines, ids, name, i) + [] == Windows(lines, ids, name, i);
  }

  lemma DedupWindowsStep(lines: seq<string>, ids: set<string>, name: string, i: nat)
    requires i < |lines|
    ensures var d := Dedup(Windows(lines, ids, name, i));
      var w := WindowSnippet(lines, i, name);
      Dedup(Windows(lines, ids, name, i + 1)) ==
        if !Mentions(lines[i], ids) || w in d then d else d + [w]
  {
    WindowsStep(lines, ids, name, i);
    DedupAppend(Windows(lines, ids, name, i), WindowSnippet(lines, i, name));
  }

  lemma BlockSnippetsStep(kind: DeclKind, content: string, ids: set<string>, name: string,
                          ds: seq<Decl>, j: nat, prior: seq<string>)
    requires InContent(content, ds) && j < |ds|
    ensures InContent(content, ds[..j]) && InContent(content, ds[..j + 1])
    ensures var block := BlockOf(Split(content, '\n'), LineOf(content, ds[j]));
      var before := prior + BlockSnippets(kind, content, ids, name, ds[..j]);
      var after := prior + BlockSnippets(kind, content, ids, name, ds[..j + 1]);
      (Selected(ds[j], ids) && block != [] ==> after == before + [BlockSnippet(kind, name, block)]) &&
      (!(Selected(ds[j], ids) && block != []) ==> after == before)
  {
    assert ds[..j + 1][..j] == ds[..j];
    var x := BlockSnippets(kind, content, ids, name, ds[..j]);
    assert prior + (x + []) == prior + x;
  }

  lemma DedupBlockStep(kind: DeclKind, content: string, ids: set<string>, name: string,
                       ds: seq<Decl>, j: nat, prior: seq<string>)
    requires InContent(content, ds) && j < |ds|
    ensures InContent(content, ds[..j]) && InContent(content, ds[..j + 1])
    ensures var block := BlockOf(Split(content, '\n'), LineOf(content, ds[j]));
      var d := Dedup(prior + BlockSnippets(kind, content, ids, name, ds[..j]));
      var w := BlockSnippet(kind, name, block);
      Dedup(prior + BlockSnippets(kind, content, ids, name, ds[..j + 1])) ==
        if Selected(ds[j], ids) && block != [] && w !in d then d + [w] else d
  {
    BlockSnippetsStep(kind, content, ids, name, ds, j, prior);
    var block := BlockOf(Split(content, '\n'), LineOf(content, ds[j]));
    DedupAppend(prior + BlockSnippets(kind, content, ids, name, ds[..j]), BlockSnippet(kind, name, block));
  }

  /** The inner loop over one pattern's matches. */
  method AddBlockSnippets(snippets: seq<string>, ghost prior: seq<string>, kind: DeclKind,
                          content: string, lines: seq<string>, ids: set<string>, name: string)
    returns (out: seq<string>)
    requires snippets == Dedup(prior) && lines == Split(content, '\n')
    ensures out == Dedup(prior + KindSnippets(kind, content, ids, name))
  {
    out := snippets;
    var decls := DeclsFrom(kind, content, 0);
    var j := 0;
    assert prior + BlockSnippets(kind, content, ids, name, decls[..0]) == prior;
    while j < |decls|
      invariant j <= |decls|
      invariant InContent(content, decls[..j])
      invariant out == Dedup(prior + BlockSnippets(kind, content, ids, name, decls[..j]))
    {
      out := AddBlockSnippet(out, prior, kind, content, lines, ids, name, decls, j);
      j := j + 1;
    }
    assert decls[..j] == decls;
  }

  /** One match of the pattern: its block, when the declaration is
      selected and the block is not empty, unless the same text was kept
      before. */
  method AddBlockSnippet(snippets: seq<string>, ghost prior: seq<string>, kind: DeclKind,
                         content: string, lines: seq<string>, ids: set<string>, name: string,
                         decls: seq<Decl>, j: nat)
    returns (out: seq<string>)
    requires lines == Split(content, '\n') && InContent(content, decls) && j < |decls|
    requires snippets == Dedup(prior + BlockSnippets(kind, content, ids, name, decls[..j]))
    ensures out == Dedup(prior + BlockSnippets(kind, content, ids, name, decls[..j + 1]))
  {
    out := snippets;
    var d := decls[j];
    DedupBlockStep(kind, content, ids, name, decls, j, prior);
    if Selected(d, ids) {
      var lineNum := CountChar(content[..d.start], '\n');
      var block := BlockLines(lines, lineNum);
      assert lineNum == LineOf(content, d);
      if block != [] {
        var formatted := BlockSnippet(kind, name, block);
        if formatted !in out {
          out := out + [formatted];
        }
      }
    }
  }

  /** The loop over lines: a window around every line that mentions an
      identifier, each kept once. */
  method AddWindowSnippets(lines: seq<string>, ids: set<string>, name: string)
    returns (snippets: seq<string>)
    ensures snippets == Dedup(Windows(lines, ids, name, |lines|))
  {
    snippets := [];
    var i := 0;
    while i < |lines|
      invariant i <= |lines|
      invariant snippets == Dedup(Windows(lines, ids, name, i))
    {
      DedupWindowsStep(lines, ids, name, i);
      if Mentions(lines[i], ids) {
        var formatted := WindowSnippet(lines, i, name);
        if formatted !in snippets {
          snippets := snippets + [formatted];
        }
      }
      i := i + 1;
    }
  }

  /** The snippets of one file: the line windows, then the blocks of the
      selected struct, impl and fn declarations, each text kept once. */
  method ExtractRelevantSnippets(content: string, ids: set<string>, path: string)
    returns (snippets: seq<string>)
    ensures snippets == Snippets(content, ids, path)
  {
    var lines := Split(content, '\n');
    var name := BaseName(path);
    snippets := AddWindowSnippets(lines, ids, name);
    ghost var prior := Windows(lines, ids, name, |lines|);
    snippets := AddBlockSnippets(snippets, prior, StructDecl, content, lines, ids, name);
    prior := prior + KindSnippets(StructDecl, content, ids, name);
    snippets := AddBlockSnippets(snippets, prior, ImplDecl, content, lines, ids, name);
    prior := prior + KindSnippets(ImplDecl, content, ids, name);
    snippets := AddBlockSnippets(snippets, prior, FnDecl, content, lines, ids, name);
  }

  // ---------------------------------------------------------------------
  // Collecting the project context

  /** A project file; an unreadable one has no content. */
  datatype SourceFile = SourceFile(path: string, content: Option<string>)

  function FileContext(f: SourceFile, ids: set<string>): seq<string> {
    if f.content.Some? && IsRelevantFile(f.content.value, ids) then Snippets(f.content.value, ids, f.path)
    else []
  }

  /** The snippets of every file, concatenated in listing order. */
  function AllContext(files: seq<SourceFile>, ids: set<string>): seq<string> {
    ConcatMap(files, f => FileContext(f, ids))
  }

  /** The collected context: nothing when the listing itself fails,
      otherwise the concatenation cut to `maxItems` (a Python slice). */
  function ProjectContext(listing: Option<seq<SourceFile>>, ids: set<string>, maxItems: int): seq<string> {
    if listing.None? then [] else PyPrefix(AllContext(listing.value, ids), maxItems)
  }

  method CollectProjectContext(listing: Option<seq<SourceFile>>, ids: set<string>, maxItems: int)
    returns (context: seq<string>)
    ensures context == ProjectContext(listing, ids, maxItems)
  {
    if listing.None? {
      return [];
    }
    var files := listing.value;
    context := [];
    var i := 0;
    while i < |files|
      invariant i <= |files|
      invariant context == AllContext(files[..i], ids)
    {
      var f := files[i];
      ConcatMapStep(files, f => FileContext(f, ids), i);
      if f.content.Some? {
        var content := f.content.value;
        if IsRelevantFile(content, ids) {
          var snippets := ExtractRelevantSnippets(content, ids, f.path);
          context := context + snippets;
        }
      }
      i := i + 1;
    }
    assert files[..i] == files;
    context := PyPrefix(context, maxItems);
  }

  /** Files contribute independently: there is no de-duplication across
      files. */
  lemma AllContextAppend(a: seq<SourceFile>, b: seq<SourceFile>, ids: set<string>)
    ensures AllContext(a + b, ids) == AllContext(a, ids) + AllContext(b, ids)
  {
    ConcatMapAppend(a, b, f => FileContext(f, ids));
  }

  /** So the same file listed twice yields every one of its snippets twice. */
  lemma RepeatedFileRepeatsSnippets(f: SourceFile, ids: set<string>)
    requires FileContext(f, ids) != []
    ensures AllContext([f, f], ids) == FileContext(f, ids) + FileContext(f, ids)
    ensures !NoDuplicates(AllContext([f, f], ids))
  {
    AllContextAppend([f], [f], ids);
    assert [f] + [f] == [f, f];
    assert AllContext([f], ids) == FileContext(f, ids) by {
      assert [f][..0] == [];
    }
    var c := FileContext(f, ids);
    assert (c + c)[0] == (c + c)[|c|];
  }

  /** The collected context is a prefix of the concatenation, at most
      `maxItems` long when that is not negative. */
  lemma ContextIsBoundedPrefix(listing: Option<seq<SourceFile>>, ids: set<string>, maxItems: int)
    requires listing.Some?
    ensures var c := ProjectContext(listing, ids, maxItems);
      var all := AllContext(listing.value, ids);
      c == all[..|c|] && (maxItems >= 0 ==> |c| == Min(maxItems, |all|))
  {
  }

  // ---------------------------------------------------------------------
  // Paths, as Python's `pathlib` treats them on POSIX

  /** A component a path keeps: `pathlib` drops empty and `.` components. */
  predicate IsComponent(c: string) { c != "" && c != "." }

  /** A pure path: whether it starts at `/`, and its components. */
  datatype PurePath = PurePath(absolute: bool, parts: seq<string>)

  predicate WellFormed(p: PurePath) {
    forall k :: 0 <= k < |p.parts| ==> IsComponent(p.parts[k]) && '/' !in p.parts[k]
  }

  /** `Path(s)`. */
  function ParsePath(s: string): (p: PurePath)
    ensures WellFormed(p)
    ensures p.absolute <==> s != [] && s[0] == '/'
  {
    PurePath(s != [] && s[0] == '/', Filter(Split(s, '/'), IsComponent))
  }

  /** `p / q`: the components of both, unless `q` is absolute and replaces
      `p`. */
  function JoinPath(p: PurePath, q: PurePath): (r: PurePath)
    ensures WellFormed(p) && WellFormed(q) ==> WellFormed(r)
  {
    if q.absolute then q else PurePath(p.absolute, p.parts + q.parts)
  }

  /** `str(p)`: `.` for a relative path without components. */
  function PathText(p: PurePath): string {
    if p.absolute then "/" + Join(p.parts, "/")
    else if p.parts == [] then "."
    else Join(p.parts, "/")
  }

  /** `p.name`: the last component, or the empty text when there is none. */
  function PathName(p: PurePath): string {
    if p.parts == [] then "" else p.parts[|p.parts| - 1]
  }

  /** `Path(path).name`. */
  function BaseName(path: string): (r: string)
    ensures '/' !in r && r != "."
  {
    PathName(ParsePath(path))
  }

  /** `Path(root) / "src"` adds this one component. */
  const SrcDir := PurePath(false, ["src"])

  /** A text that `pathlib` writes back unchanged. */
  predicate Normalised(s: string) { PathText(ParsePath(s)) == s }

  /** Writing a path and reading it back gives the same path. */
  lemma PathTextRoundTrip(p: PurePath)
    requires WellFormed(p)
    ensures ParsePath(PathText(p)) == p
  {
    if p.parts == [] {
      EmptyPathRoundTrip(p.absolute);
    } else {
      var j := Join(p.parts, "/");
      FilterAll(p.parts, IsComponent);
      SplitJoin(p.parts, '/');
      assert "/" == ['/'];
      JoinStarts(p.parts, "/");
      if p.absolute {
        RootedSplit(j);
        FilterAppend([""], p.parts, IsComponent);
      }
    }
  }

  lemma EmptyPathRoundTrip(absolute: bool)
    ensures ParsePath(PathText(PurePath(absolute, []))) == PurePath(absolute, [])
  {
    var t := PathText(PurePath(absolute, []));
    var parts := Split(t, '/');
    if absolute {
      SplitConcat("", "", '/');
      assert t == "" + ['/'] + "";
      assert parts == ["", ""];
    } else {
      SplitNoSep(t, '/');
      assert parts == [t];
    }
    assert Filter(parts, IsComponent) == [];
  }

  lemma RootedSplit(j: string)
    ensures Split("/" + j, '/') == [""] + Split(j, '/')
  {
    SplitConcat("", j, '/');
    assert "/" + j == "" + ['/'] + j;
  }

  lemma JoinStarts(parts: seq<string>, sep: string)
    requires parts != [] && parts[0] != []
    ensures Join(parts, sep) != [] && Join(parts, sep)[0] == parts[0][0]
  {
  }

  /** A trailing slash is dropped when a path is read. */
  lemma TrailingSlash(s: string)
    requires s != []
    ensures ParsePath(s + "/") == ParsePath(s)
  {
    SplitSnoc(s, "", '/');
    assert s + "/" == s + ['/'] + "";
    FilterSnoc(Split(s, '/'), "", IsComponent);
  }

  /** The name of a path is its last component: a last component after a
      slash is the name, and a trailing slash is ignored. */
  lemma BaseNameLast(s: string, c: string)
    requires IsComponent(c) && '/' !in c
    ensures BaseName(s + "/" + c) == c
    ensures BaseName(s + "/" + c + "/") == c
  {
    SplitSnoc(s, c, '/');
    assert s + "/" + c == s + ['/'] + c;
    FilterSnoc(Split(s, '/'), c, IsComponent);
    TrailingSlash(s + "/" + c);
  }

  /** Joining a relative path with components to a path with components
      puts one `/` between their texts. */
  lemma JoinedText(p: PurePath, q: PurePath)
    requires p.parts != [] && !q.absolute && q.parts != []
    ensures PathText(JoinPath(p, q)) == PathText(p) + "/" + PathText(q)
  {
    JoinConcat(p.parts, q.parts, "/");
    if p.absolute {
      AppendAssoc("/", Join(p.parts, "/") + "/", Join(q.parts, "/"));
    }
  }

  // ---------------------------------------------------------------------
  // Finding the file a diff refers to

  /** The paths tried for one file change, in order: the name under the
      root, under `root/src`, and the name's last component under the
      root. */
  function CandidatePaths(root: string, name: string): seq<string> {
    var r, n := ParsePath(root), ParsePath(name);
    [PathText(JoinPath(r, n)),
     PathText(JoinPath(JoinPath(r, SrcDir), n)),
     PathText(JoinPath(r, ParsePath(BaseName(name))))]
  }

  /** A root and a name already written as `pathlib` writes them are
      joined as text with a `/` between them. */
  lemma TextualCandidates(root: string, name: string)
    requires Normalised(root) && ParsePath(root).parts != []
    requires Normalised(name) && !ParsePath(name).absolute && ParsePath(name).parts != []
    ensures CandidatePaths(root, name)[0] == root + "/" + name
    ensures CandidatePaths(root, name)[1] == root + "/" + "src" + "/" + name
  {
    var r, n := ParsePath(root), ParsePath(name);
    var c := CandidatePaths(root, name);
    JoinedText(r, n);
    assert c[0] == root + "/" + name;
    var src := JoinPath(r, SrcDir);
    JoinedText(r, SrcDir);
    assert PathText(SrcDir) == "src";
    JoinedText(src, n);
  }

  /** A trailing slash on the root changes nothing; a root of `.` or the
      empty text leaves the name as it is; an absolute name replaces the
      root. */
  lemma CandidateEdges(root: string, name: string)
    ensures root != [] ==> CandidatePaths(root + "/", name) == CandidatePaths(root, name)
    ensures ParsePath(root) == PurePath(false, []) ==>
      CandidatePaths(root, name)[0] == PathText(ParsePath(name))
    ensures name != [] && name[0] == '/' ==>
      CandidatePaths(root, name)[0] == PathText(ParsePath(name))
  {
    if root != [] {
      TrailingSlash(root);
    }
    var n := ParsePath(name);
    assert [] + n.parts == n.parts;
  }

  function AllCandidates(root: string, files: seq<FileChange>): seq<string>
    decreases |files|
  {
    if files == [] then [] else CandidatePaths(root, files[0].filename) + AllCandidates(root, files[1..])
  }

  /** The first path that exists. */
  function FirstExisting(paths: seq<string>, existing: set<string>): (r: Option<string>)
    ensures r.Some? ==> r.value in existing && r.value in paths
    ensures r.None? ==> forall k :: 0 <= k < |paths| ==> paths[k] !in existing
    decreases |paths|
  {
    if paths == [] then None
    else if paths[0] in existing then Some(paths[0])
    else FirstExisting(paths[1..], existing)
  }

  lemma {:induction false} FirstExistingAppend(a: seq<string>, b: seq<string>, existing: set<string>)
    ensures FirstExisting(a + b, existing)
         == if FirstExisting(a, existing).Some? then FirstExisting(a, existing) else FirstExisting(b, existing)
    decreases |a|
  {
    if a == [] {
      assert a + b == b;
    } else {
      assert (a + b)[1..] == a[1..] + b;
      FirstExistingAppend(a[1..], b, existing);
    }
  }

  /** The resolved file: none when the diff does not parse. */
  function ResolveFile(diff: string, root: string, existing: set<string>): Option<string> {
    match ParseSpec(diff)
    case Err(_) => None
    case Ok(files) => FirstExisting(AllCandidates(root, files), existing)
  }

  method FindRelevantFile(diff: string, root: string, existing: set<string>) returns (r: Option<string>)
    ensures r == ResolveFile(diff, root, existing)
  {
    var parsed := Parse(diff);
    if parsed.Err? {
      return None;
    }
    var files := parsed.value;
    var i := 0;
    while i < |files|
      invariant i <= |files|
      invariant ResolveFile(diff, root, existing) == FirstExisting(AllCandidates(root, files[i..]), existing)
    {
      var paths := CandidatePaths(root, files[i].filename);
      assert files[i..][1..] == files[i + 1..];
      FirstExistingAppend(paths, AllCandidates(root, files[i + 1..]), existing);
      var found := FindExisting(paths, existing);
      if found.Some? {
        return found;
      }
      i := i + 1;
    }
    return None;
  }

  /** The loop over one file change's candidate paths. */
  method FindExisting(paths: seq<string>, existing: set<string>) returns (r: Option<string>)
    ensures r == FirstExisting(paths, existing)
  {
    var j := 0;
    while j < |paths|
      invariant j <= |paths|
      invariant FirstExisting(paths, existing) == FirstExisting(paths[j..], existing)
    {
      if paths[j] in existing {
        return Some(paths[j]);
      }
      assert paths[j..][1..] == paths[j + 1..];
      j := j + 1;
    }
    return None;
  }

  /** `p` exists, is one of `paths`, and no path before it exists. */
  predicate FirstFound(paths: seq<string>, existing: set<string>, p: string) {
    exists k :: 0 <= k < |paths| && paths[k] == p && p in existing &&
                forall j :: 0 <= j < k ==> paths[j] !in existing
  }

  /** The resolved path exists and is the first existing candidate, in
      file-change order and then root, `src`, base name; when the diff
      parses and nothing is resolved, no candidate exists. */
  lemma ResolvedFileFacts(diff: string, root: string, existing: set<string>)
    requires ParseSpec(diff).Ok?
    ensures var r := ResolveFile(diff, root, existing);
      var paths := AllCandidates(root, ParseSpec(diff).value);
      (r.Some? ==> FirstFound(paths, existing, r.value)) &&
      (r.None? ==> forall k :: 0 <= k < |paths| ==> paths[k] !in existing)
  {
    FirstExistingIndex(AllCandidates(root, ParseSpec(diff).value), existing);
  }

  lemma {:induction false} FirstExistingIndex(paths: seq<string>, existing: set<string>)
    ensures FirstExisting(paths, existing).Some? ==> FirstFound(paths, existing, FirstExisting(paths, existing).value)
    decreases |paths|
  {
    if paths != [] && paths[0] !in existing {
      FirstExistingIndex(paths[1..], existing);
      var r := FirstExisting(paths, existing);
      if r.Some? {
        var k :| 0 <= k < |paths[1..]| && paths[1..][k] == r.value && r.value in existing &&
                 forall j :: 0 <= j < k ==> paths[1..][j] !in existing;
        assert paths[k + 1] == r.value;
        forall j | 0 <= j < k + 1 ensures paths[j] !in existing {
          if j > 0 { assert paths[j] == paths[1..][j - 1]; }
        }
      }
    } else if paths != [] {
      assert paths[0] == FirstExisting(paths, existing).value;
    }
  }
}
