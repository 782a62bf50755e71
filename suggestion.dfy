// The deterministic parts of the suggestion generator: the numbered project
// context handed to the model, the summary of a parsed diff, the validation
// of a suggested diff without git, and the answer to a blank diff.

module Suggestion {
  import opened Common
  import opened DiffParser

  // ---------------------------------------------------------------------
  // Project context for the prompt

  /** At most this many context items are listed. */
  const MaxListedItems: nat := 20

  const NoContextText := "No additional project context available."
  const ContextHeader := "Relevant code from the project:\n\n"

  /** The line for item number `n`. */
  function Entry(n: nat, item: string): string {
    NatToString(n) + ". " + item + "\n"
  }

  /** The numbered lines for `items`, counting from 1. */
  function Entries(items: seq<string>): (r: seq<string>)
    ensures |r| == |items|
  {
    seq(|items|, k requires 0 <= k < |items| => Entry(k + 1, items[k]))
  }

  /** The note on items beyond the listed ones, if there are any. */
  function MoreItems(items: seq<string>): string {
    if |items| > MaxListedItems then
      "\n... and " + NatToString(|items| - MaxListedItems) + " more items"
    else ""
  }

  /** The formatted context: a fixed text when there is none, else the
      header, the first twenty items numbered from 1, and the note on the
      rest. */
  function FormattedContext(items: seq<string>): string {
    if items == [] then NoContextText
    else ContextHeader + Flatten(Entries(items[..Min(|items|, MaxListedItems)])) + MoreItems(items)
  }

  method FormatProjectContext(items: seq<string>) returns (formatted: string)
    ensures formatted == FormattedContext(items)
  {
    if items == [] {
      return NoContextText;
    }
    var limited := items[..Min(|items|, MaxListedItems)];
    ghost var es := Entries(limited);
    formatted := ContextHeader;
    for i := 0 to |limited|
      invariant formatted == ContextHeader + Flatten(es[..i])
    {
      FlattenStep(es, i);
      EntryAt(limited, i);
      formatted := formatted + Entry(i + 1, limited[i]);
    }
    assert es[..|limited|] == es;
    if |items| > MaxListedItems {
      formatted := formatted + MoreItems(items);
    }
  }

  lemma EntryAt(items: seq<string>, k: nat)
    requires k < |items|
    ensures Entries(items)[k] == Entry(k + 1, items[k])
  {
  }

  /** Each of the first twenty items appears in the formatted context as its
      own numbered line, numbered from 1. */
  lemma ItemIsListed(items: seq<string>, k: nat)
    requires k < |items| && k < MaxListedItems
    ensures Contains(FormattedContext(items), Entry(k + 1, items[k]))
  {
    var es := Entries(items[..Min(|items|, MaxListedItems)]);
    FlattenMember(ContextHeader, es, MoreItems(items), k);
  }

  /** The fixed text is given exactly when there are no items. */
  lemma NoContextIffEmpty(items: seq<string>)
    ensures FormattedContext(items) == NoContextText <==> items == []
  {
    if items != [] {
      var es := Entries(items[..Min(|items|, MaxListedItems)]);
      var r := FormattedContext(items);
      ConcatEnds(ContextHeader, Flatten(es), MoreItems(items));
      assert r[..|ContextHeader|] == ContextHeader;
      assert r[0] == ContextHeader[0];
    }
  }

  /** A non-empty context starts with the header. */
  lemma ContextStartsWithHeader(items: seq<string>)
    requires items != []
    ensures StartsWith(FormattedContext(items), ContextHeader)
  {
    ConcatEnds(ContextHeader, Flatten(Entries(items[..Min(|items|, MaxListedItems)])), MoreItems(items));
  }

  /** With more than twenty items the context ends with the count of the
      items left unlisted. */
  lemma ContextEndsWithCount(items: seq<string>)
    requires |items| > MaxListedItems
    ensures EndsWith(FormattedContext(items),
                     "\n... and " + NatToString(|items| - MaxListedItems) + " more items")
  {
    ConcatEnds(ContextHeader, Flatten(Entries(items[..MaxListedItems])), MoreItems(items));
  }

  /** With one to twenty items the context ends with the newline of the last
      item. */
  lemma ContextEndsWithNewline(items: seq<string>)
    requires 0 < |items| <= MaxListedItems
    ensures EndsWith(FormattedContext(items), "\n")
  {
    var body := Flatten(Entries(items[..|items|]));
    assert FormattedContext(items) == ContextHeader + body;
    EntriesEndWithNewline(items[..|items|]);
    EndsWithExtend(ContextHeader, body, "\n");
  }

  lemma EntriesEndWithNewline(items: seq<string>)
    requires items != []
    ensures EndsWith(Flatten(Entries(items)), "\n")
  {
    var es := Entries(items);
    var e := es[|es| - 1];
    FlattenEndsWithLast(es);
    assert e[|e| - 1..] == "\n";
    EndsWithTrans(Flatten(es), e, "\n");
  }

  // ---------------------------------------------------------------------
  // Validation of a suggested diff

  /** How a diff is validated: by the shape check of the mock client, or by
      `git apply --check`, whose verdict is given since the external process
      is not part of this model. */
  datatype Validator = MockValidator | GitValidator(applies: bool)

  /** The lines of the stripped diff. */
  function DiffLines(diff: string): seq<string> {
    Split(PyStrip(diff), '\n')
  }

  /** Some line starts with `p`. */
  predicate AnyLineStarts(lines: seq<string>, p: string) {
    exists i :: 0 <= i < |lines| && StartsWith(lines[i], p)
  }

  /** The validity of a suggested diff: an empty or blank diff is valid;
      otherwise the mock check asks for a `--- ` line, a `+++ ` line and a
      line starting `@@`. */
  function ValidateSuggestion(diff: string, v: Validator): bool {
    if diff == [] || PyStrip(diff) == [] then true
    else match v
      case MockValidator =>
        var lines := DiffLines(diff);
        AnyLineStarts(lines, "--- ") && AnyLineStarts(lines, "+++ ") && AnyLineStarts(lines, "@@")
      case GitValidator(applies) => applies
  }

  /** A diff of only whitespace needs no change and is valid for either
      validator. */
  lemma BlankDiffIsValid(diff: string, v: Validator)
    requires IsBlank(diff)
    ensures ValidateSuggestion(diff, v)
  {
    PyStripEmptyIffBlank(diff);
  }

  lemma LineMarkerOccurs(diff: string, p: string)
    requires AnyLineStarts(DiffLines(diff), p)
    ensures Contains(diff, p)
  {
    var lines := DiffLines(diff);
    var k :| 0 <= k < |lines| && StartsWith(lines[k], p);
    var l := PyLStrip(diff);
    var t := PyRStrip(l);
    SplitPartOccurs(t, '\n', k);
    var i :| OccursAt(t, lines[k], i);
    assert OccursAt(lines[k], p, 0);
    OccursWithin(t, lines[k], p, i, 0);
    assert OccursAt(l, t, 0);
    OccursWithin(l, t, p, 0, i);
    assert OccursAt(diff, l, |diff| - |l|);
    OccursWithin(diff, l, p, |diff| - |l|, i);
  }

  /** The mock check only passes a diff whose text holds the three markers. */
  lemma MockValidHasMarkers(diff: string)
    requires ValidateSuggestion(diff, MockValidator) && !IsBlank(diff)
    ensures Contains(diff, "--- ") && Contains(diff, "+++ ") && Contains(diff, "@@")
  {
    PyStripEmptyIffBlank(diff);
    LineMarkerOccurs(diff, "--- ");
    LineMarkerOccurs(diff, "+++ ");
    LineMarkerOccurs(diff, "@@");
  }

  /** A diff made of a `--- ` line, a `+++ ` line and a hunk passes the mock
      check, whatever follows the `@@`. */
  lemma MockAcceptsHeaders(diff: string, oldName: string, newName: string, hunk: string)
    requires '\n' !in oldName && '\n' !in newName
    requires diff == ("--- " + oldName) + "\n" + ("+++ " + newName) + "\n" + "@@" + hunk
    ensures ValidateSuggestion(diff, MockValidator)
  {
    var a, b := "--- " + oldName, "+++ " + newName;
    HeaderDiffLines(a, b, hunk);
    var lines := DiffLines(diff);
    assert lines[0] == a && lines[1] == b;
    assert a[..4] == "--- " && b[..4] == "+++ ";
    assert StartsWith(lines[0], "--- ") && StartsWith(lines[1], "+++ ")
      && StartsWith(lines[2], "@@");
    MockCheckPasses(diff);
  }

  /** The lines of a diff whose first two lines are `a` and `b` and whose
      third line starts with `@@`. */
  lemma HeaderDiffLines(a: string, b: string, hunk: string)
    requires '\n' !in a && '\n' !in b && a != [] && !PyIsSpace(a[0])
    ensures PyStrip(a + "\n" + b + "\n" + "@@" + hunk) != []
    ensures var lines := DiffLines(a + "\n" + b + "\n" + "@@" + hunk);
      |lines| >= 3 && lines[0] == a && lines[1] == b && StartsWith(lines[2], "@@")
  {
    var p := a + "\n" + b + "\n" + "@@";
    assert p[0] == a[0] && p[|p| - 1] == '@';
    PyStripKeepsPrefix(p, hunk);
    assert a + "\n" + b + "\n" + "@@" + hunk == p + hunk;
    SplitHeaderLines(PyStrip(p + hunk), a, b);
  }

  lemma SplitHeaderLines(t: string, a: string, b: string)
    requires '\n' !in a && '\n' !in b
    requires StartsWith(t, a + "\n" + b + "\n" + "@@")
    ensures var lines := Split(t, '\n');
      |lines| >= 3 && lines[0] == a && lines[1] == b && StartsWith(lines[2], "@@")
  {
    var n := |a| + |b| + 2;
    var tail := t[n..];
    assert t == a + ['\n'] + b + ['\n'] + tail by {
      assert t[..n + 2] == a + "\n" + b + "\n" + "@@";
    }
    SplitTwoLines(a, b, tail, '\n');
    assert tail == "@@" + tail[2..] by {
      assert tail[..2] == t[n..n + 2];
    }
    SplitHeadStarts("@@", tail[2..], '\n');
  }

  lemma MockCheckPasses(diff: string)
    requires PyStrip(diff) != []
    requires AnyLineStarts(DiffLines(diff), "--- ") && AnyLineStarts(DiffLines(diff), "+++ ")
    requires AnyLineStarts(DiffLines(diff), "@@")
    ensures ValidateSuggestion(diff, MockValidator)
  {
  }

  // ---------------------------------------------------------------------
  // Summary of a parsed diff

  /** Which kinds of change and which kinds of item a diff touches; the
      rendering of these sets as text follows Python's set order and is not
      modelled. */
  datatype Summary = CodeModifications | ChangesIn(kinds: set<ChangeType>, items: set<string>)

  datatype DiffContext = DiffContext(identifiers: set<string>, changeTypes: set<ChangeType>,
                                     summary: Summary, fileCount: nat)

  /** Additions, deletions and modifications are recorded; context lines
      are not. */
  predicate Recorded(c: DiffChange) {
    c.kind == Addition || c.kind == Deletion || c.kind == Modification
  }

  /** The item an old line belongs to, by substring, `struct` before `impl`
      before `fn`. */
  function ItemLabel(line: string): Option<string> {
    if Contains(line, "struct") then Some("struct definition")
    else if Contains(line, "impl") then Some("implementation block")
    else if Contains(line, "fn") then Some("function definition")
    else None
  }

  function ChangeKinds(c: DiffChange): set<ChangeType> {
    if Recorded(c) then {c.kind} else {}
  }

  /** The item a recorded change with a non-empty old line contributes. */
  function ChangeItems(c: DiffChange): seq<string> {
    if Recorded(c) && c.oldLine.Some? && c.oldLine.value != [] && ItemLabel(c.oldLine.value).Some? then
      [ItemLabel(c.oldLine.value).value]
    else []
  }

  function FileKinds(f: FileChange): set<ChangeType> { UnionOf(f.changes, ChangeKinds) }
  function FilesKinds(files: seq<FileChange>): set<ChangeType> { UnionOf(files, FileKinds) }
  function FileItems(f: FileChange): seq<string> { ConcatMap(f.changes, ChangeItems) }
  function FilesItems(files: seq<FileChange>): seq<string> { ConcatMap(files, FileItems) }

  function SummaryOf(kinds: set<ChangeType>, items: seq<string>): Summary {
    if items == [] then CodeModifications else ChangesIn(kinds, set x | x in items)
  }

  /** The context of a diff: its identifiers, the kinds of recorded change,
      the summary and the number of files. */
  function DiffContextOf(files: seq<FileChange>): DiffContext {
    DiffContext(FilesTokens(files), FilesKinds(files),
                SummaryOf(FilesKinds(files), FilesItems(files)), |files|)
  }

  /** The recorded kinds and the items of one file's changes. */
  method AddFileContext(kinds: set<ChangeType>, items: seq<string>, changes: seq<DiffChange>)
    returns (kinds': set<ChangeType>, items': seq<string>)
    ensures kinds' == kinds + UnionOf(changes, ChangeKinds)
    ensures items' == items + ConcatMap(changes, ChangeItems)
  {
    kinds', items' := kinds, items;
    for j := 0 to |changes|
      invariant kinds' == kinds + UnionOf(changes[..j], ChangeKinds)
      invariant items' == items + ConcatMap(changes[..j], ChangeItems)
    {
      UnionOfStep(changes, ChangeKinds, j);
      ConcatMapStep(changes, ChangeItems, j);
      var c := changes[j];
      if Recorded(c) {
        kinds' := kinds' + {c.kind};
        if c.oldLine.Some? && c.oldLine.value != [] {
          var line := c.oldLine.value;
          if Contains(line, "struct") {
            items' := items' + ["struct definition"];
          } else if Contains(line, "impl") {
            items' := items' + ["implementation block"];
          } else if Contains(line, "fn") {
            items' := items' + ["function definition"];
          }
        }
      }
    }
    assert changes[..|changes|] == changes;
  }

  method ExtractDiffContext(files: seq<FileChange>) returns (ctx: DiffContext)
    ensures ctx == DiffContextOf(files)
  {
    var identifiers := ExtractIdentifiers(files);
    var kinds: set<ChangeType> := {};
    var items: seq<string> := [];
    for i := 0 to |files|
      invariant kinds == UnionOf(files[..i], FileKinds)
      invariant items == ConcatMap(files[..i], FileItems)
    {
      UnionOfStep(files, FileKinds, i);
      ConcatMapStep(files, FileItems, i);
      kinds, items := AddFileContext(kinds, items, files[i].changes);
    }
    assert files[..|files|] == files;
    var summary := if items == [] then CodeModifications else ChangesIn(kinds, set x | x in items);
    ctx := DiffContext(identifiers, kinds, summary, |files|);
  }

  /** The recorded kinds are exactly the non-context kinds of the diff's
      changes. */
  lemma KindsRecorded(files: seq<FileChange>)
    ensures forall k :: k in FilesKinds(files) <==>
      k != Context && exists i, j :: 0 <= i < |files| && 0 <= j < |files[i].changes| &&
                                     files[i].changes[j].kind == k
  {
    UnionOfMembers(files, FileKinds);
    forall i | 0 <= i < |files| {
      UnionOfMembers(files[i].changes, ChangeKinds);
    }
  }

  /** An item kind is named in the summary exactly when some recorded
      change's old line is classified as that item. */
  lemma ItemsClassified(files: seq<FileChange>)
    ensures forall x :: x in FilesItems(files) <==>
      exists i, j :: 0 <= i < |files| && 0 <= j < |files[i].changes| &&
                     x in ChangeItems(files[i].changes[j])
  {
    ConcatMapMembers(files, FileItems);
    forall i | 0 <= i < |files| {
      ConcatMapMembers(files[i].changes, ChangeItems);
    }
  }

  /** The summary falls back to "code modifications" exactly when no
      recorded change has an old line mentioning `struct`, `impl` or `fn`. */
  lemma SummaryFallback(files: seq<FileChange>)
    ensures DiffContextOf(files).summary == CodeModifications <==>
      forall i, j :: 0 <= i < |files| && 0 <= j < |files[i].changes| &&
                     Recorded(files[i].changes[j]) && files[i].changes[j].oldLine.Some? ==>
                     ItemLabel(files[i].changes[j].oldLine.value).None?
  {
    ItemsClassified(files);
    var items := FilesItems(files);
    if items != [] {
      assert items[0] in items;
    }
    forall i, j | 0 <= i < |files| && 0 <= j < |files[i].changes| &&
                  Recorded(files[i].changes[j]) && files[i].changes[j].oldLine.Some? &&
                  ItemLabel(files[i].changes[j].oldLine.value).Some?
      ensures items != []
    {
      var line := files[i].changes[j].oldLine.value;
      var x := ItemLabel(line).value;
      assert x in ChangeItems(files[i].changes[j]);
      assert x in items;
    }
  }

  // ---------------------------------------------------------------------
  // The answer to a blank diff

  datatype SuggestionResult = SuggestionResult(
    diffContent: string, originalContent: string,
    baseSuggestion: Option<string>, finalDiff: Option<string>,
    isValid: Option<bool>, projectContext: seq<string>)

  const NoChangesText := "No changes detected in the diff."

  /** The result returned without asking the model, for a blank diff; for
      any other diff the model is asked, which is not part of this model. */
  function BlankDiffResult(diff: string, original: string, context: seq<string>)
    : Option<SuggestionResult>
  {
    if PyStrip(diff) == [] then
      Some(SuggestionResult(diff, original, Some(NoChangesText), Some(""), Some(true), context))
    else None
  }

  /** The short cut is taken exactly for blank diffs, which the parser reads
      as no file changes; it keeps its inputs, suggests no diff, and its
      verdict agrees with validating that empty diff. */
  lemma BlankDiffShortCut(diff: string, original: string, context: seq<string>, v: Validator)
    ensures BlankDiffResult(diff, original, context).Some? <==> IsBlank(diff)
    ensures IsBlank(diff) ==> ParseSpec(diff) == Ok([])
    ensures BlankDiffResult(diff, original, context).Some? ==>
      var r := BlankDiffResult(diff, original, context).value;
      r.diffContent == diff && r.originalContent == original && r.projectContext == context &&
      r.finalDiff == Some("") && r.isValid == Some(ValidateSuggestion("", v))
  {
    PyStripEmptyIffBlank(diff);
    ParseOutcome(diff);
  }
}
