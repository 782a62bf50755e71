# Rust-Copartner, modelled in Dafny

Rust-Copartner suggests the next edit to a Rust project from the diff a
developer has just made. Its Python pipeline parses the unified diff,
collects the identifiers on the changed lines, pulls related snippets out of
the project's files and resolves which file the diff refers to. Around it
sit a Rust source analyzer (item location, module paths, whitespace and
comment normalisation, complexity metrics), several Rust command-line tools
that rank, filter and report on those metrics, a Python indexer that
validates and batches code records, and a retrieval tool that merges
per-field vector-search hits and formats them as text.

This project models that deterministic core, one Dafny module per source
file, and proves what each part promises:

| module | file | models |
|---|---|---|
| `DiffParser` | diff_parser.dfy | `python/src/diff_parser.py`: the line scan, modification pairing, identifier extraction |
| `Workflow` | workflow.dfy | `python/src/workflow.py`: file relevance, snippet extraction, context collection, file resolution |
| `Suggestion` | suggestion.dfy | `python/src/suggestion_generator.py`: context formatting, diff summary, mock validation, the blank-diff short cut |
| `FixDiff` | fix_diff.dfy | `utils/fix_diff.py`: the diff-header rewrite |
| `Scanner` | scanner.dfy | `rust/src/analyzer/scanner.rs`: path exclusion, item text location, the JSON array framing |
| `AnalyzerUtil` | util.dfy | `rust/src/analyzer/util.rs`: module paths, whitespace and comment normalisation, identifier dedup, spans |
| `Complexity` | complexity.dfy | `rust/src/complexity_analyzer.rs`: ratings, metric formulas, the nesting counter and the visitor's counters |
| `ComplexityCli` | complexity_cli.dfy | `rust/src/bin/complexity_cli.rs`: filtering, sorting, distribution counts, the JSON export |
| `Thresholds` | thresholds.dfy | the threshold filters shared by the Rust tools |
| `Performance` | performance.dfy | `rust/src/bin/performance_analyzer.rs`: impact score, profiling focus, suggestions, quick wins |
| `CodeGenerator` | code_generator.dfy | `rust/src/bin/code_generator.rs`: recommendations, counts, test and bench names |
| `AiTestGen` | test_gen.dfy | `rust/src/bin/simple_ai_test_gen.rs`: function extraction, code cleaning, test counting, suite joining |
| `IndexBuild` | indexer_build.dfy | `python/src/indexer/build.py`: batching, record validation, gathering and upsert counting |
| `Retrieval` | indexer_retrieval.dfy | `python/src/indexer/retrieval.py`: field validation, merge, sort and limit |
| `RetrievalCli` | retrieval_cli.dfy | `python/src/bin/retrieval.py`: field parsing and result formatting |

`Common` (common.dfy) holds the shared text and sequence vocabulary: ASCII
character classes, find/split/join, Python's `strip` and Rust's `trim`,
Python slices, order-preserving dedup, filters and folds. `Sorting`
(sorting.dfy) is a stable sort by a key, highest first, proved sorted, a
permutation and stable; it stands for Python's `list.sort(reverse=True)`
and Rust's `sort_by` on a descending key.

Where the code loops or updates state, the model is a method with that loop
and its invariants, proved equal to a specification function; the
properties the code promises are then lemmas about that function. Text is
ASCII (`seq<char>`); integers are unbounded, and the few places where the
source's integer width matters are written out.

Where the repository's own description and its code disagree, the model
follows the code:
- the diff parser does not reset its line counters at a `---` header, does
  not compare the `+++` name with the `---` name, and accepts a `---` header
  on the last line;
- the file resolver tries every file change of the diff, not only the first;
- the declaration patterns of the snippet extractor run over the whole file
  text, so their `\s+` may span a line break;
- the complexity analyzer never sets `line_count`, which stays 0.

Two behaviours of the code are kept as written and proved harmless or
stated outright: the JSON export quotes values without escaping, which is
valid JSON for every value it can meet, since those are identifiers and
joins of identifiers; and the use-tree visitor goes on into the subtrees
it has already handled, so `use a::b;` records both `a::b` and `b`, and the
names of a `use` group are recorded twice.

## Model

| member | source | states |
|---|---|---|
| Sorting.SortDescSorted | python/src/indexer/retrieval.py:103 | the sort by score, highest first, returns its input ordered by descending score |
| Sorting.SortDescPermutation | python/src/indexer/retrieval.py:103 | the sort neither loses nor invents elements |
| Sorting.SortDescStable | python/src/indexer/retrieval.py:103 | the sort is stable: elements of equal score keep their input order |
| DiffParser.FileHeader | python/src/diff_parser.py:46 | `^--- a/(.+)$` matches exactly the lines starting `--- a/` with a nonempty rest, and yields that rest as the name |
| DiffParser.ParseRange | python/src/diff_parser.py:48 | a hunk range `(\d+),?\d*` is read off the front of the text, leaving a strict suffix |
| DiffParser.RangeTextParse | python/src/diff_parser.py:48 | a range written as `start` or `start,count` is read back as `start`, leaving the rest of the line |
| DiffParser.HunkHeaderRoundTrip | python/src/diff_parser.py:48-107 | every hunk header as git writes it, with or without line counts and with any trailing text, is recognised with its old and new start lines |
| DiffParser.LineNumbering | python/src/diff_parser.py:104-141 | a hunk header sets both counters; a deletion takes the old counter and advances only it; an addition takes the new counter and advances only it; a context line (one leading space dropped, or any non-`@@` line kept verbatim while a file is open) takes the old counter and advances both; other lines change nothing |
| DiffParser.ScanHeaderStep | python/src/diff_parser.py:78-101 | a `--- a/` line closes the open file, opens a new empty one and skips the line after it |
| DiffParser.ScanHeaderError | python/src/diff_parser.py:93-98 | a `--- a/` line followed by a line that is not `+++ b/...` fails the parse with the missing-header error |
| DiffParser.ScanLineStep | python/src/diff_parser.py:103-143 | any other line is one step of the line reading and the scan moves to the next line |
| DiffParser.ScanLines | python/src/diff_parser.py:66-143 | the line loop over the open file, its changes and the two counters computes the scan specification |
| DiffParser.Parse | python/src/diff_parser.py:50-161 | the parser returns exactly the specified outcome: blank input, scan, last file, no-file error, then pairing |
| DiffParser.DetectAllModifications | python/src/diff_parser.py:157-159 | the post-pass replaces each file's changes by their pairing and keeps every file in order |
| DiffParser.AllModifications | python/src/diff_parser.py:157-159 | one output file per input file, each with its changes paired |
| DiffParser.PairPairStep | python/src/diff_parser.py:180-192 | a deletion followed by an addition becomes one modification with the deletion's line number and old text and the addition's new text, and the scan skips both |
| DiffParser.PairSingleStep | python/src/diff_parser.py:193-195 | any other change passes through unchanged |
| DiffParser.DetectModifications | python/src/diff_parser.py:163-197 | the index loop computes the pairing of the change list |
| DiffParser.PairCounts | python/src/diff_parser.py:176-197 | the output is shorter than the input by exactly the number of pairs formed, no deletion-addition pair is left over, and the first change is kept or becomes a modification |
| DiffParser.PairUnpaired | python/src/diff_parser.py:176-197 | a list with nothing to pair passes through unchanged |
| DiffParser.PairIdempotent | python/src/diff_parser.py:163-197 | pairing twice is pairing once |
| DiffParser.PairKeepsOldTexts | python/src/diff_parser.py:186-191 | on well-formed changes pairing keeps every removed text, in order |
| DiffParser.PairKeepsNewTexts | python/src/diff_parser.py:186-191 | on well-formed changes pairing keeps every added text, in order |
| DiffParser.PairWellFormed | python/src/diff_parser.py:186-191 | a modification carries both texts, so pairing keeps changes well formed |
| DiffParser.ScanErrors | python/src/diff_parser.py:93-98 | the scan fails if and only if some `--- a/` line has a successor that is not a `+++ b/` line, and then with that error |
| DiffParser.ScanNames | python/src/diff_parser.py:78-152 | a successful scan opens one file per `--- a/` line, in input order |
| DiffParser.ScanWellFormed | python/src/diff_parser.py:80-141 | every recorded change carries exactly the texts its kind calls for and every file is named `a/<name>` and `b/<name>` |
| DiffParser.FinishOutcome | python/src/diff_parser.py:145-161 | the finished scan fails on a `---` line without its `+++` successor, else on input without any `--- a/` line, and else returns one file per header, in order, named `a/<name>`/`b/<name>`, with well-formed changes and every pair merged |
| DiffParser.ParseOutcome | python/src/diff_parser.py:63-155 | blank input gives no files and no error; otherwise the outcome is that of the scan over the stripped lines, both error cases as if-and-only-if |
| DiffParser.FindAll | python/src/diff_parser.py:212-227 | `findall` of the identifier pattern: every match is nonempty and does not start with a digit |
| DiffParser.FindAllTokens | python/src/diff_parser.py:212 | from a word boundary, a string is found exactly when it is a whole word-character run that does not start with a digit |
| DiffParser.FindAllIsTokenSet | python/src/diff_parser.py:212 | over a whole text, the matches are exactly the text's identifier tokens |
| DiffParser.Matches | python/src/diff_parser.py:212-232 | the matches of a text are its token set, each nonempty and not starting with a digit |
| DiffParser.TextMatches | python/src/diff_parser.py:226-233 | skipping an absent or empty text loses no token |
| DiffParser.FilesTokensMembers | python/src/diff_parser.py:223-233 | the collected set holds a string exactly when it is a token of the old or new text of some change of some file |
| DiffParser.FilesTokensShape | python/src/diff_parser.py:236-239 | every collected token is nonempty and starts with a non-digit |
| DiffParser.DigitFilterKeeps | python/src/diff_parser.py:236-239 | the length and `isdigit` filter removes nothing |
| DiffParser.AddChangeTokens | python/src/diff_parser.py:224-233 | the inner loop adds the tokens of every change's old and new text |
| DiffParser.ExtractIdentifiers | python/src/diff_parser.py:199-244 | the result is exactly the token set of all old and new texts: the filter and the keyword union change nothing |
| Workflow.OccurrenceIsRelevant | python/src/workflow.py:245-252 | a case-sensitive occurrence of an identifier makes a file relevant, since lower-casing keeps occurrences |
| Workflow.EmptyPartIsRelevant | python/src/workflow.py:254-258 | an identifier longer than three characters with a leading, trailing or doubled underscore makes every file relevant |
| Workflow.BaseName | python/src/workflow.py:281 | `Path(p).name` contains no `/` and is never `.` |
| Workflow.BaseNameLast | python/src/workflow.py:281 | the name of a path is its last component, with or without a trailing slash |
| Workflow.ParsePath | python/src/workflow.py:169-171 | `Path(s)` is absolute exactly when `s` starts with `/`, and keeps only nonempty components other than `.`, none containing `/` |
| Workflow.JoinPath | python/src/workflow.py:169-171 | joining two well-formed paths gives a well-formed path |
| Workflow.PathTextRoundTrip | python/src/workflow.py:169-171 | a well-formed path written out by `str()` and read back by `Path()` is the same path |
| Workflow.EmptyPathRoundTrip | python/src/workflow.py:169-171 | the path without components, written as `/` or `.`, reads back as itself |
| Workflow.TrailingSlash | python/src/workflow.py:169-171 | a trailing slash on a nonempty path text does not change the path |
| Workflow.JoinedText | python/src/workflow.py:169-171 | a path with components joined with a relative path with components is written as the two texts with one `/` between them |
| Workflow.TextualCandidates | python/src/workflow.py:168-172 | for a root and a relative name that are already normalised, the first two candidates are `root/name` and `root/src/name` as text |
| Workflow.CandidateEdges | python/src/workflow.py:168-172 | a trailing slash on the root changes no candidate, a root of `.` or the empty text leaves the name unprefixed, and an absolute name replaces the root |
| Workflow.Around | python/src/workflow.py:277-280 | the window around line `i` holds at most five lines, with line `i` at index min(i, 2) |
| Workflow.SpacedWord | python/src/workflow.py:288-290 | `\s+(\w+)` yields a nonempty word-character name ending after the position |
| Workflow.MatchStruct | python/src/workflow.py:288 | a struct match starts at the position and ends after it within the text |
| Workflow.MatchImpl | python/src/workflow.py:289 | an impl match starts at the position and ends after it within the text |
| Workflow.MatchFn | python/src/workflow.py:290 | a fn match starts at the position and ends after it within the text |
| Workflow.StructRecognized | python/src/workflow.py:288 | `struct Name` and `pub struct Name` at a line start are matched, with `pub ` as the first group and the name as the second |
| Workflow.FnRecognized | python/src/workflow.py:290 | `fn name` and `pub fn name` at a line start are matched, with the name as group 1 |
| Workflow.ImplRecognized | python/src/workflow.py:289 | `impl Name` at a line start is matched, with the name as group 1 |
| Workflow.GenericImplRecognized | python/src/workflow.py:289 | `impl<params> Name` is matched, with the name after the generic parameters as group 1 |
| Workflow.DeclsFrom | python/src/workflow.py:292-294 | `finditer` yields matches at line starts, within the text, in order and not overlapping |
| Workflow.BlockEnd | python/src/workflow.py:304-314 | the block's end lies between the current line and the 20-line window's end |
| Workflow.BlockEndFacts | python/src/workflow.py:306-314 | the block ends at the first line after which the brace count has closed, or at the window's end |
| Workflow.BlockOfShape | python/src/workflow.py:300-314 | a block is 1 to 20 consecutive lines from the declaration's line, clamped to the file, ending at the first line where the count drops to zero or below after a `{`, or at the window's end |
| Workflow.BlockLines | python/src/workflow.py:300-314 | the brace-counting loop computes that block |
| Workflow.AddWindowSnippets | python/src/workflow.py:274-285 | the loop over lines adds a window snippet for every line mentioning an identifier, each text once |
| Workflow.AddBlockSnippet | python/src/workflow.py:294-321 | one match adds its block snippet when its name is an identifier, its block is not empty and the same text was not kept before, which is one more step of the de-duplicated block snippets |
| Workflow.AddBlockSnippets | python/src/workflow.py:292-322 | the loop over one pattern's matches adds the block snippet of every match whose name is an identifier, each text once |
| Workflow.ExtractRelevantSnippets | python/src/workflow.py:262-324 | one file's snippets are its line windows, then its struct, impl and fn blocks, with repeated texts dropped |
| Workflow.SnippetsDistinct | python/src/workflow.py:284-322 | one file never yields the same snippet twice, and yields every candidate snippet |
| Workflow.DeclLineInFile | python/src/workflow.py:296-316 | a match starts on a line of the file, so its block is never empty |
| Workflow.CollectProjectContext | python/src/workflow.py:198-226 | the loop over the listing skips unreadable and irrelevant files, concatenates the snippets of the others in order, and slices the result; a failed listing gives nothing |
| Workflow.AllContextAppend | python/src/workflow.py:205-219 | files contribute independently, in listing order |
| Workflow.RepeatedFileRepeatsSnippets | python/src/workflow.py:205-219 | de-duplication does not cross files: the same file listed twice yields its snippets twice |
| Workflow.ContextIsBoundedPrefix | python/src/workflow.py:40-222 | the collected context is a prefix of the concatenation of at most `max_context_items` entries |
| Workflow.FirstExisting | python/src/workflow.py:166-176 | the first existing path, or none when no path exists |
| Workflow.FirstExistingAppend | python/src/workflow.py:166-176 | searching two candidate lists in turn is searching their concatenation |
| Workflow.FindExisting | python/src/workflow.py:174-176 | the loop over one file change's candidates returns the first one that exists, or none |
| Workflow.FindRelevantFile | python/src/workflow.py:162-181 | the nested loops over file changes and their candidate paths compute the resolved file |
| Workflow.ResolvedFileFacts | python/src/workflow.py:162-181 | the resolved path exists and no earlier candidate does, in file-change order and then `Path(root) / name`, `Path(root) / "src" / name`, `Path(root) / Path(name).name`; when nothing is resolved no candidate exists |
| Suggestion.Entries | python/src/suggestion_generator.py:391-392 | one numbered line per item |
| Suggestion.FormatProjectContext | python/src/suggestion_generator.py:382-397 | the loop builds the specified context text |
| Suggestion.ItemIsListed | python/src/suggestion_generator.py:388-392 | each of the first twenty items appears as its own line numbered from 1 |
| Suggestion.NoContextIffEmpty | python/src/suggestion_generator.py:384-385 | the fixed "No additional project context available." text is given exactly when there are no items |
| Suggestion.ContextStartsWithHeader | python/src/suggestion_generator.py:390 | a nonempty context starts with the header |
| Suggestion.ContextEndsWithCount | python/src/suggestion_generator.py:394-395 | more than twenty items end with "... and N more items", N being the items beyond twenty |
| Suggestion.ContextEndsWithNewline | python/src/suggestion_generator.py:390-395 | one to twenty items end with the last item's newline |
| Suggestion.BlankDiffIsValid | python/src/suggestion_generator.py:308-309 | an empty or blank diff is valid for either validator |
| Suggestion.MockValidHasMarkers | python/src/suggestion_generator.py:312-319 | a nonblank diff passes the mock check only if it holds `--- `, `+++ ` and `@@` |
| Suggestion.MockAcceptsHeaders | python/src/suggestion_generator.py:312-319 | a diff of a `--- ` line, a `+++ ` line and a hunk passes the mock check |
| Suggestion.MockCheckPasses | python/src/suggestion_generator.py:312-319 | a nonblank diff with a line starting with each of the three markers passes the mock check |
| Suggestion.AddFileContext | python/src/suggestion_generator.py:360-371 | the inner loop records the kinds and items of one file's changes |
| Suggestion.ExtractDiffContext | python/src/suggestion_generator.py:351-380 | the loop computes the diff's identifiers, recorded kinds, summary and file count |
| Suggestion.KindsRecorded | python/src/suggestion_generator.py:361-362 | the recorded kinds are exactly the non-context kinds of the diff's changes |
| Suggestion.ItemsClassified | python/src/suggestion_generator.py:365-371 | an item is listed exactly when some recorded change's old line is classified as it, `struct` before `impl` before `fn` |
| Suggestion.SummaryFallback | python/src/suggestion_generator.py:373 | the summary is "code modifications" exactly when no recorded change's old line mentions `struct`, `impl` or `fn` |
| Suggestion.BlankDiffShortCut | python/src/suggestion_generator.py:66-75 | the short cut is taken exactly for blank diffs, which parse to no files; it keeps its inputs, gives the empty diff, and is valid as that diff is |
| FixDiff.RStripSlashes | utils/fix_diff.py:8-9 | `rstrip("/")` removes exactly the trailing slashes |
| FixDiff.NormalizePrefixFacts | utils/fix_diff.py:8-9 | a prefix ends in exactly one slash, keeps the argument up to its trailing slashes, and normalising twice changes nothing |
| FixDiff.Backtrack | utils/fix_diff.py:14-19 | the regular expression's `\s+` ends at the last position, at least one whitespace character in, where the prefix follows, or there is no match |
| FixDiff.FixDiff | utils/fix_diff.py:4-23 | the program runs exactly when given two arguments and writes one line per input line |
| FixDiff.FixLineShape | utils/fix_diff.py:12-23 | a header line comes out without a tab and ending in a newline; every other line comes out unchanged |
| FixDiff.OldHeaderRewritten | utils/fix_diff.py:12-16 | `--- <prefix><path>\t<stamp>` becomes `--- a/<path>`, which the diff parser reads back as the path |
| FixDiff.NewHeaderRewritten | utils/fix_diff.py:17-21 | `+++ <prefix><path>\t<stamp>` becomes `+++ b/<path>`, which the diff parser accepts as a new-file header |
| FixDiff.UntabbedHeaderDoublesNewline | utils/fix_diff.py:15-20 | a header line without a tab keeps its own newline and gains a second one |
| Scanner.ExcludedPaths | rust/src/analyzer/scanner.rs:17-20 | every path with a `/target/` directory and every `.generated.rs` file is excluded |
| Scanner.BraceClose | rust/src/analyzer/scanner.rs:217-232 | the closing brace, if found, lies within the rest of the text |
| Scanner.LocateItemText | rust/src/analyzer/scanner.rs:193-236 | the located start line, end line and text are those of the specification |
| Scanner.LocateInRest | rust/src/analyzer/scanner.rs:201-233 | from the needle on, the semicolon case and then the brace case compute the located item |
| Scanner.MatchBraces | rust/src/analyzer/scanner.rs:213-232 | the depth-counting loop from the first `{` ends at the brace that closes it, or finds nothing |
| Scanner.BraceCloseDepth | rust/src/analyzer/scanner.rs:217-232 | the brace found is the first index where the depth from the first `{` returns to zero; there is none when it never does |
| Scanner.LocatedShape | rust/src/analyzer/scanner.rs:193-236 | the text is empty, or starts at the first occurrence of `<keyword> <ident>` and ends at a `;` with no `{` before it or at the `}` closing the first `{`; the start line is 1 plus the newlines before the needle; the end line adds the text's newlines; an empty text has end line 1, even past line 1 |
| Scanner.WriteRecords | rust/src/analyzer/scanner.rs:238-252 | the output is `[`, the records separated by single commas, then `]` and a newline |
| Scanner.RecordsFramingRoundTrip | rust/src/analyzer/scanner.rs:238-252 | the output is `[`, the body and `]` plus a newline, and splitting the body at the commas outside strings and brackets gives the records back, for records that are each one JSON value |
| Scanner.PiecesOfJoin | rust/src/analyzer/scanner.rs:238-252 | records joined with commas split back at top-level commas into the same records |
| Scanner.PiecesAcross | rust/src/analyzer/scanner.rs:238-252 | a text without a top-level comma stays whole in the first piece |
| Scanner.FramedExamples | rust/src/analyzer/scanner.rs:245 | a value with commas inside brackets or a string counts as one record, and a bare top-level comma does not |
| AnalyzerUtil.LastDot | rust/src/analyzer/util.rs:136 | the index of the last `.`, or none when there is no `.` |
| AnalyzerUtil.RelModulePath | rust/src/analyzer/util.rs:115-151 | the loop over the components computes the specified module path |
| AnalyzerUtil.StemOf | rust/src/analyzer/util.rs:136 | the stem of `name.ext` is `name` |
| AnalyzerUtil.ModulePathOfFile | rust/src/analyzer/util.rs:132-149 | `dirs/name.ext` becomes `crate::` and the directories and the name, joined with `::` |
| AnalyzerUtil.ModulePathOfStem | rust/src/analyzer/util.rs:132-149 | a last component with an ordinary stem contributes the stem after the directories |
| AnalyzerUtil.ModulePathOfModuleStem | rust/src/analyzer/util.rs:137-149 | a `mod`, `lib` or `main` stem contributes nothing, leaving the directories, or `crate` when there are none |
| AnalyzerUtil.ModulePathOfModuleFile | rust/src/analyzer/util.rs:137-149 | `mod.rs`, `lib.rs` and `main.rs` stand for their directory's module, or for the crate at the top |
| AnalyzerUtil.SrcDropped | rust/src/analyzer/util.rs:122-127 | a leading `src` component does not show in the module path |
| AnalyzerUtil.ModulePathPrefix | rust/src/analyzer/util.rs:128-150 | every module path is `crate` or starts with `crate::` |
| AnalyzerUtil.RunEnd | rust/src/analyzer/util.rs:80 | a `\s+` run ends at the first non-whitespace character |
| AnalyzerUtil.CollapseFacts | rust/src/analyzer/util.rs:80-81 | replacing whitespace runs keeps the text nonempty, keeps non-whitespace ends, and leaves every whitespace character a single space followed by non-whitespace |
| AnalyzerUtil.CompactWhitespaceCompact | rust/src/analyzer/util.rs:79-82 | the output has no whitespace at either end and every whitespace run is one space |
| AnalyzerUtil.CompactWhitespaceIdempotent | rust/src/analyzer/util.rs:79-82 | compacting twice is compacting once |
| AnalyzerUtil.CollapseKeepsText | rust/src/analyzer/util.rs:80-81 | every non-whitespace character is kept, in order |
| AnalyzerUtil.LineEnd | rust/src/analyzer/util.rs:86 | `.` stops at the next newline or the end of the text |
| AnalyzerUtil.FirstPair | rust/src/analyzer/util.rs:86-89 | the leftmost occurrence of a two-character opener, or none |
| AnalyzerUtil.StripLineCommentsByLine | rust/src/analyzer/util.rs:85-87 | removing `//.*` cuts each line before its first `//` and keeps every newline |
| AnalyzerUtil.NoSlashUnchanged | rust/src/analyzer/util.rs:84-91 | text without a slash passes both passes unchanged |
| AnalyzerUtil.NoLineComment | rust/src/analyzer/util.rs:86-87 | text without two adjacent slashes passes the line pass unchanged |
| AnalyzerUtil.BlockCommentRemoved | rust/src/analyzer/util.rs:84-91 | a block comment between slash-free code is removed and nothing else is |
| AnalyzerUtil.DedupIdents | rust/src/analyzer/util.rs:107-111 | the `seen`-set filter keeps each identifier once, in first-occurrence order, and loses none |
| AnalyzerUtil.SpanStartEnd | rust/src/analyzer/util.rs:153-165 | a span is returned, unchanged, exactly when both its start line and end line are positive |
| Complexity.FromScoreBands | rust/src/complexity_analyzer.rs:40-47 | 1-5 rate Low, 6-10 Medium, 11-20 High, and every other score, 0 included, VeryHigh, each as an if-and-only-if |
| Complexity.FromScoreMonotone | rust/src/complexity_analyzer.rs:40-47 | among positive scores a larger score never gets a lower rating |
| Complexity.RatingText | rust/src/complexity_analyzer.rs:269-278 | every rating displays as a nonempty text |
| Complexity.RatingTextRoundTrip | rust/src/complexity_analyzer.rs:269-278 | the display text determines the rating; VeryHigh displays as "Very High" |
| Complexity.UseOfPath | rust/src/complexity_analyzer.rs:146-257 | `use a::b;` records `a::b` and then, from the default traversal, `b` |
| Complexity.UseGroupTwice | rust/src/complexity_analyzer.rs:248-256 | the items of a group are visited twice, so their dependencies are recorded twice, in order |
| Complexity.AbsorbCombine | rust/src/complexity_analyzer.rs:168-267 | visiting two expressions in turn adds their contributions in turn |
| Complexity.ComplexityVisitor.constructor | rust/src/complexity_analyzer.rs:111-116 | a new visitor has zero counts, depth 0 and line count 0 |
| Complexity.ComplexityVisitor.EnterNesting | rust/src/complexity_analyzer.rs:135-140 | the depth goes up by one and the deepest depth seen follows it; nothing else changes |
| Complexity.ComplexityVisitor.ExitNesting | rust/src/complexity_analyzer.rs:142-144 | the depth goes down by one, stopping at zero; nothing else changes |
| Complexity.ComplexityVisitor.CollectUsePath | rust/src/complexity_analyzer.rs:146-165 | each leaf name below the path records the joined full path; only the dependency list changes |
| Complexity.ComplexityVisitor.VisitUseTree | rust/src/complexity_analyzer.rs:238-257 | the tree's own entries are recorded, then those of the nested visit |
| Complexity.ComplexityVisitor.Visit | rust/src/complexity_analyzer.rs:168-267 | one expression's contribution is absorbed at the current depth and the depth afterwards is the depth before |
| Complexity.ComplexityVisitor.VisitIf | rust/src/complexity_analyzer.rs:169-174 | one more `if`, its children one level deeper, the depth restored |
| Complexity.ComplexityVisitor.VisitMatch | rust/src/complexity_analyzer.rs:176-182 | the arm count, not one, is added; children one level deeper |
| Complexity.ComplexityVisitor.VisitLoopKind | rust/src/complexity_analyzer.rs:184-203 | `while`, `for` and `loop` each add one loop, children one level deeper |
| Complexity.ComplexityVisitor.VisitUnsafe | rust/src/complexity_analyzer.rs:231-236 | one more unsafe block, children one level deeper |
| Complexity.ComplexityVisitor.VisitCall | rust/src/complexity_analyzer.rs:205-217 | one more call, the callee's last segment recorded when it is a path, children at the same depth |
| Complexity.ComplexityVisitor.VisitMacro | rust/src/complexity_analyzer.rs:219-229 | the macro's path, joined with `::`, is recorded |
| Complexity.ComplexityVisitor.VisitItemFn | rust/src/complexity_analyzer.rs:259-266 | one more function item and its generic parameters, then its body at the same depth |
| Complexity.ComplexityVisitor.VisitNested | rust/src/complexity_analyzer.rs:171-173 | children are visited between entering and leaving a level, so the depth afterwards equals the depth before |
| Complexity.Cyclomatic | rust/src/complexity_analyzer.rs:119-125 | the cyclomatic score is at least 1 |
| Complexity.CognitiveFromCyclomatic | rust/src/complexity_analyzer.rs:119-133 | the cognitive score is the cyclomatic score less one, plus two per nesting level and three per unsafe block |
| Complexity.AnalyzeFunction | rust/src/complexity_analyzer.rs:63-79 | a fresh visitor over the function item gives the specified report |
| Complexity.ComplexityOfFacts | rust/src/complexity_analyzer.rs:63-115 | the rating is that of the cyclomatic score, which is 1 plus ifs, arms and loops; the function counts as one function item; the line count stays 0 |
| Complexity.DescribeFrame | rust/src/complexity_analyzer.rs:280-292 | the display text opens with "Function: " and the name and closes with the rating's text |
| Complexity.FunctionDetailsOfBody | rust/src/complexity_analyzer.rs:259-266 | a function's details are the function item's own counts followed by its body's contribution |
| Complexity.StraightLineIsLow | rust/src/complexity_analyzer.rs:40-125 | a body without branches or loops scores 1 and rates Low |
| Complexity.MatchScoresArms | rust/src/complexity_analyzer.rs:119-182 | a lone match with n arms scores 1 + n, nests one level, and has cognitive score n + 2 |
| Complexity.NestedIfDepth | rust/src/complexity_analyzer.rs:135-174 | an `if` inside an `if` nests two deep, scoring 3 and cognitive 6 |
| Complexity.FunctionCollector.constructor | rust/src/complexity_analyzer.rs:82-85 | a new collector has no reports |
| Complexity.FunctionCollector.VisitFunction | rust/src/complexity_analyzer.rs:88-108 | a function's report is appended, then those of the functions nested in it |
| Complexity.FunctionCollector.VisitImpl | rust/src/complexity_analyzer.rs:96-108 | an impl block's methods are reported in order |
| Complexity.FunctionCollector.Visit | rust/src/complexity_analyzer.rs:93-107 | walking an expression reports every function item nested in it, in order, and nothing else |
| Complexity.FunctionCollector.VisitAll | rust/src/complexity_analyzer.rs:93-107 | walking a body reports the nested functions of its expressions, in order |
| Complexity.FunctionCollector.VisitItem | rust/src/complexity_analyzer.rs:88-108 | a function item reports itself and its nested functions, an impl block reports its methods, any other item nothing |
| Complexity.ComplexityVisitor.VisitAll | rust/src/complexity_analyzer.rs:168-267 | walking a body absorbs the tally of its expressions at the current depth and leaves the depth as it was |
| Complexity.FunctionCollector.VisitItems | rust/src/complexity_analyzer.rs:53-61 | every item of a file is visited in order |
| Complexity.ItemReportsCons | rust/src/complexity_analyzer.rs:53-61 | an item's reports come before those of the items after it |
| Complexity.ModuleReported | rust/src/complexity_analyzer.rs:53-60 | the functions of an inline module are reported where the module stands, before the items after it |
| Complexity.TopLevelReported | rust/src/complexity_analyzer.rs:88-94 | a file opening with a function reports it first, then the functions nested in it, then the rest |
| Complexity.TopLevelCount | rust/src/complexity_analyzer.rs:88-94 | a file of top-level functions has at least one report per function |
| ComplexityCli.ListFile | rust/src/bin/complexity_cli.rs:97-119 | no functions gives the "no functions" outcome and only then; otherwise the functions shown are those the threshold lets through, in order, and the total counts them all |
| ComplexityCli.ShownFunctions | rust/src/bin/complexity_cli.rs:104-113 | the printing loop skips exactly the functions below the threshold |
| ComplexityCli.ThresholdHides | rust/src/bin/complexity_cli.rs:104-113 | a function is shown exactly when it reaches the threshold, and without a threshold every function is shown |
| ComplexityCli.RetainHigh | rust/src/bin/complexity_cli.rs:168-175 | `retain` keeps exactly the High and VeryHigh functions, in order |
| ComplexityCli.AnalyzeDirectory | rust/src/bin/complexity_cli.rs:135-177 | the functions of every analysed file are gathered in order and the analysed files counted; unreadable and unparsable files are skipped; then filter and sort |
| ComplexityCli.DirectoryListingFacts | rust/src/bin/complexity_cli.rs:168-177 | the listing is sorted by descending cyclomatic score, is a permutation of the gathered (or high-rated) functions, and keeps the gathering order among equal scores |
| ComplexityCli.HighOnlyKeepsExactlyHigh | rust/src/bin/complexity_cli.rs:168-175 | under the high-only option a function is listed exactly when it was gathered and rates High or Very High |
| ComplexityCli.DistributionTotal | rust/src/bin/complexity_cli.rs:234-251 | the low, medium, high and very-high counts add up to the total |
| ComplexityCli.TopFive | rust/src/bin/complexity_cli.rs:302-305 | the statistics name min(5, n) functions |
| ComplexityCli.TopFiveDominates | rust/src/bin/complexity_cli.rs:302-305 | no function left out of the top five is more complex than one named in it |
| ComplexityCli.OptionalPair | rust/src/bin/complexity_cli.rs:421-441 | a list-valued field is written only when the list is nonempty |
| ComplexityCli.ExportJson | rust/src/bin/complexity_cli.rs:387-446 | the export loop writes the bracket lines around one object per function, in order, the last without a trailing comma |
| ComplexityCli.ExportBrackets | rust/src/bin/complexity_cli.rs:393-446 | the export opens with a `[` line and closes with a `]` line, with nothing between for no functions |
| ComplexityCli.ObjectShape | rust/src/bin/complexity_cli.rs:395-443 | each object has six fixed fields plus one per nonempty list, every field line ends with a comma, the rating comes last without one, and the closing brace has a comma exactly when another object follows |
| ComplexityCli.EscapeRoundTrip | rust/src/bin/complexity_cli.rs:398-440 | a value escaped as section 7 of RFC 8259 requires reads back exactly, with whatever follows its closing quote |
| ComplexityCli.JsonStringReadsBack | rust/src/bin/complexity_cli.rs:398 | an escaped, quoted value reads back as itself |
| ComplexityCli.UnescapedNameMisread | rust/src/bin/complexity_cli.rs:398 | quoting without escaping is not valid JSON in general: a value holding a quote is read back cut short at that quote |
| ComplexityCli.PlainValueReadsBack | rust/src/bin/complexity_cli.rs:398-440 | for a value with no quote, backslash or control character, quoting without escaping is exactly the escaped JSON string and reads back as the value |
| ComplexityCli.IdentifierValueReadsBack | rust/src/bin/complexity_cli.rs:398-440 | every name and list of names the visitor collects (identifiers joined with `::` or `, `) is exported as a JSON string that reads back as itself |
| Thresholds.Fired | rust/src/bin/performance_analyzer.rs:139-160 | a report of a rule table never holds more texts than the table has rules |
| Thresholds.FiredAppend | rust/src/bin/performance_analyzer.rs:139-160 | the report of two tables one after the other is the first table's report followed by the second's |
| Thresholds.FiredFrom | rust/src/bin/performance_analyzer.rs:139-160 | every reported text belongs to a rule of the table whose condition holds |
| Thresholds.FiredIff | rust/src/bin/performance_analyzer.rs:139-160 | when the texts of a table are distinct, a rule's text is reported exactly when its measure exceeds its bound |
| Thresholds.FiredEmpty | rust/src/bin/performance_analyzer.rs:162 | nothing is reported exactly when no rule's condition holds |
| Thresholds.AtOrAboveExactly | rust/src/bin/performance_analyzer.rs:47-49 | a function is examined exactly when it was reported and its cyclomatic complexity reaches the threshold; a threshold of 0 keeps every function in order |
| Performance.Impact | rust/src/bin/performance_analyzer.rs:121-137 | the impact score never exceeds 100 |
| Performance.CalculateImpact | rust/src/bin/performance_analyzer.rs:121-137 | the score accumulated measure by measure is the capped weighted sum |
| Performance.ImpactFormula | rust/src/bin/performance_analyzer.rs:125-136 | the score is the minimum of 100 and 5·cyclomatic + 3·cognitive + 15·loops + 8·nesting + 2·calls + 10·unsafe + 3·parameters |
| Performance.WeightedMonotone | rust/src/bin/performance_analyzer.rs:125-133 | the uncapped sum never decreases when no measure decreases |
| Performance.ImpactMonotone | rust/src/bin/performance_analyzer.rs:121-137 | raising any measure never lowers the impact score |
| Performance.ProfilingFocus | rust/src/bin/performance_analyzer.rs:212-236 | the focus line is the joined areas of the four focus rules that fire, in order, or the general advice |
| Performance.FocusAreaNamed | rust/src/bin/performance_analyzer.rs:215-229 | each focus area is named exactly when its condition holds (loops > 0, calls > 10, unsafe > 0, nesting > 4) |
| Performance.FocusGeneral | rust/src/bin/performance_analyzer.rs:231-235 | the general advice is given exactly when there are no loops, at most 10 calls, no unsafe block and nesting at most 4 |
| Performance.OptimizationSuggestions | rust/src/bin/performance_analyzer.rs:139-160 | the suggestions are the texts of the five suggestion rules that fire, in order |
| Performance.SuggestionMade | rust/src/bin/performance_analyzer.rs:142-160 | each suggestion is made exactly when its condition holds (loops > 2, nesting > 4, calls > 15, parameters > 5, cyclomatic > 15) |
| Performance.WinsFor | rust/src/bin/performance_analyzer.rs:276-281 | a function contributes one win per quick-win rule that fires |
| Performance.ShownWins | rust/src/bin/performance_analyzer.rs:287 | at most the first five wins are listed, and exactly five when there are more |
| Performance.QuickWins | rust/src/bin/performance_analyzer.rs:274-290 | the wins gathered function by function and cut to five are the shown wins |
| Performance.WinsForUnfold | rust/src/bin/performance_analyzer.rs:276-281 | a function's wins are the parameter win when it takes more than five parameters, then the nesting win when it nests deeper than four, both named after the function |
| Performance.WinsForLength | rust/src/bin/performance_analyzer.rs:276-281 | a function contributes one win for too many parameters and one for too deep a nesting |
| Performance.AllWinsCount | rust/src/bin/performance_analyzer.rs:274-282 | before the cut, the wins number the functions with too many parameters plus those nested too deeply |
| Performance.WinNamesCulprit | rust/src/bin/performance_analyzer.rs:274-282 | every win names an examined function that has too many parameters or is nested too deeply, with the matching advice |
| CodeGenerator.ComplexityRecommendations | rust/src/bin/code_generator.rs:310-338 | the recommendation line is the advice of the five rules that fire joined with "; ", or the all-clear |
| CodeGenerator.RecommendationGiven | rust/src/bin/code_generator.rs:313-331 | each piece of advice is given exactly when its condition holds (cyclomatic > 10, nesting > 4, unsafe > 0, parameters > 5, calls > 10) |
| CodeGenerator.WithinLimitsExactly | rust/src/bin/code_generator.rs:333-337 | no advice is given exactly when every measure is within its bound, then the line is the all-clear; otherwise each applicable piece of advice appears in the line |
| CodeGenerator.HighComplexityCountBands | rust/src/bin/code_generator.rs:237-247 | the high-complexity count is the High functions plus the Very High ones, and at most the total |
| CodeGenerator.GenerateTests | rust/src/bin/code_generator.rs:80-118 | one test per function, in order, named `test_` and the function name, calling the function directly exactly when it takes no parameters and otherwise an empty placeholder body (the notes are `//` comments inside `quote!`, which are not tokens) |
| CodeGenerator.GenerateBenchmarks | rust/src/bin/code_generator.rs:135-162 | one benchmark per function, in order, named `bench_` and the function name, calling that function |
| CodeGenerator.GeneratedNames | rust/src/bin/code_generator.rs:85-140 | test names and benchmark names determine the function name, and no test name equals a benchmark name |
| AiTestGen.TargetFunctions | rust/src/bin/simple_ai_test_gen.rs:106-109 | a function is targeted exactly when it was reported and its cyclomatic complexity reaches the threshold (`--min-complexity`, 3 by default) |
| AiTestGen.TargetFunctionsInOrder | rust/src/bin/simple_ai_test_gen.rs:106-109 | the targets keep the order in which the functions were reported: one more function adds one more target exactly when it reaches the threshold |
| AiTestGen.RustLines | rust/src/bin/simple_ai_test_gen.rs:332 | an empty text has no lines and no line contains a newline |
| AiTestGen.LinesOf | rust/src/bin/simple_ai_test_gen.rs:332 | two or more pieces between newlines always give at least one line, and no line contains a newline |
| AiTestGen.OneLine | rust/src/bin/simple_ai_test_gen.rs:332 | a nonempty text without newlines is a single line, kept whole even when it ends in a carriage return |
| AiTestGen.LinesCons | rust/src/bin/simple_ai_test_gen.rs:332 | a line ended by a newline loses a carriage return before that newline, and the following lines are those of the rest of the text |
| AiTestGen.LinesJoin | rust/src/bin/simple_ai_test_gen.rs:332 | for a text without carriage returns, joining its lines with newlines gives the text back, less a final newline |
| AiTestGen.ClosingLine | rust/src/bin/simple_ai_test_gen.rs:345-363 | the line on which the braces close, when there is one, lies between the declaration line and the end of the file |
| AiTestGen.FirstDeclaring | rust/src/bin/simple_ai_test_gen.rs:335-338 | the line found is the first one from the start point that mentions `fn <name>`; when none is found no line mentions it |
| AiTestGen.ExtractFunctionCode | rust/src/bin/simple_ai_test_gen.rs:331-369 | the walk over the lines gives the lines from the first declaring line to the one whose `}` closes the braces opened after it, or an error when there is no declaring line or the braces never close |
| AiTestGen.TakeFunction | rust/src/bin/simple_ai_test_gen.rs:341-363 | the brace count carried from line to line finds the closing line |
| AiTestGen.ScanLine | rust/src/bin/simple_ai_test_gen.rs:348-361 | the walk over a line's characters stops exactly when a `}` brings the count back to 0 after a `{`, and otherwise ends in the state the character scan gives |
| AiTestGen.QualifiedDeclarations | rust/src/bin/simple_ai_test_gen.rs:336-338 | a line mentioning `pub fn <name>` or `async fn <name>` mentions `fn <name>`, so the first test decides |
| AiTestGen.LongerNameMatches | rust/src/bin/simple_ai_test_gen.rs:336 | a line declaring a function whose name starts with the requested name passes the test |
| AiTestGen.ExtractedNamesFunction | rust/src/bin/simple_ai_test_gen.rs:335-357 | the text cut out contains `fn <name>` |
| AiTestGen.OneLineFunction | rust/src/bin/simple_ai_test_gen.rs:331-357 | a function written on one line with no other braces is cut out as that whole line |
| AiTestGen.MatchesZero | rust/src/bin/simple_ai_test_gen.rs:322 | the non-overlapping count of a pattern is 0 exactly when the pattern does not occur |
| AiTestGen.NoTestsExactly | rust/src/bin/simple_ai_test_gen.rs:322 | a suite counts no tests exactly when its code holds no `#[test]` |
| AiTestGen.CleanEndsWithOneNewline | rust/src/bin/simple_ai_test_gen.rs:424-438 | the cleaned code is the fence-free text trimmed, plus one newline, which follows no whitespace |
| AiTestGen.RemoveAllAbsent | rust/src/bin/simple_ai_test_gen.rs:427-428 | deleting a pattern leaves text without the pattern's first character unchanged |
| AiTestGen.CleanPlain | rust/src/bin/simple_ai_test_gen.rs:424-438 | code without backquotes is only trimmed and given its newline |
| AiTestGen.CleanFenced | rust/src/bin/simple_ai_test_gen.rs:424-438 | a reply fenced as Rust code is reduced to its trimmed body and a newline |
| AiTestGen.SuiteOf | rust/src/bin/simple_ai_test_gen.rs:322-328 | a suite counts no tests exactly when the reply holds no `#[test]` |
| AiTestGen.AppendSection | rust/src/bin/simple_ai_test_gen.rs:402-414 | one pass of the suite loop writes the suite's banner and cleaned code, then a blank line unless it is the last suite, extending what is written by one section |
| AiTestGen.TestFileContent | rust/src/bin/simple_ai_test_gen.rs:382-416 | the file is the header, then each suite's banner and cleaned code, with a blank line between suites and none after the last |
| AiTestGen.TestFileEnding | rust/src/bin/simple_ai_test_gen.rs:410-415 | the file ends with the last suite's cleaned code |
| AiTestGen.TestFileHoldsSuite | rust/src/bin/simple_ai_test_gen.rs:402-411 | every suite's banner and code appear in the file |
| IndexBuild.KindChecked | python/src/indexer/build.py:30-36 | a record is accepted only with kind struct, impl or fn, and a rejected one lists the kind among its failures exactly when the kind is none of these |
| IndexBuild.LineOrderChecked | python/src/indexer/build.py:43-54 | with both line numbers readable, the end line fails exactly when the start line is non-zero and the end line comes before it; a valid kind with ordered lines is accepted unchanged |
| IndexBuild.CoerceRoundTrip | python/src/indexer/build.py:38-41 | a line number written as decimal text is read back as that number |
| IndexBuild.ParseUnsigned | python/src/indexer/build.py:41 | a string of digits is read as its decimal value |
| IndexBuild.ParseSigned | python/src/indexer/build.py:41 | a minus sign followed by digits is read as the negated value |
| IndexBuild.GatherRecords | python/src/indexer/build.py:93-107 | the loops over files and records give the gathering outcome with the lenient path able to report |
| IndexBuild.GatherFile | python/src/indexer/build.py:96-107 | the loop over one file's records appends each valid record, re-raises an invalid one in strict mode, stops at a record whose line number raises a TypeError, and then applies the file's handler |
| IndexBuild.FirstTypeError | python/src/indexer/build.py:38-41 | the records before the returned index all convert their line numbers, and the record at it, if any, does not |
| IndexBuild.TypeErrorInvalid | python/src/indexer/build.py:38-41 | a record whose line number is null, an array or an object is never accepted |
| IndexBuild.TypeErrorEndsFile | python/src/indexer/build.py:96-107 | a TypeError from a line number escapes validation and ends its file: lenient gathering keeps only the valid records read before it, and strict gathering raises it when no invalid record came first |
| IndexBuild.StrictFile | python/src/indexer/build.py:96-107 | in strict mode one file passes exactly when it was read fully and every record in it is valid, and then adds its records in order |
| IndexBuild.LenientGatherSkips | python/src/indexer/build.py:93-107 | lenient gathering never raises and yields every valid record of every file, in order, including those read before a file failed |
| IndexBuild.StrictGather | python/src/indexer/build.py:93-107 | strict gathering succeeds exactly when every file was read and every record is valid, and then yields the same records as lenient gathering |
| IndexBuild.UnimportedSysRaises | python/src/indexer/build.py:103 | as written, one invalid record in lenient mode raises a NameError, where the intended behaviour skips it |
| IndexBuild.AsWrittenLenientRaises | python/src/indexer/build.py:100-107 | as written, lenient gathering raises exactly when strict gathering would |
| IndexBuild.BatchedFlatten | python/src/indexer/build.py:73-75 | the batches put back together give the input |
| IndexBuild.BatchedCount | python/src/indexer/build.py:73-75 | there are ceil(n / size) batches |
| IndexBuild.BatchedSizes | python/src/indexer/build.py:73-75 | every batch but the last holds exactly `size` elements and the last holds between 1 and `size` |
| IndexBuild.PointVectors | python/src/indexer/build.py:135-147 | every point carries exactly the four named vectors, each from its own field |
| IndexBuild.Points | python/src/indexer/build.py:126-148 | one point per record |
| IndexBuild.BuildIndex | python/src/indexer/build.py:78-153 | with the lenient report fixed (see ## Findings), a build ensures the collection when uploading, returns 0 without records, and otherwise upserts the points batch by batch and returns their number |
| IndexBuild.UpsertBatches | python/src/indexer/build.py:124-153 | the batch loop sends each batch's points and counts them when uploading, and sends nothing and counts 0 otherwise |
| IndexBuild.BuildUpserts | python/src/indexer/build.py:109-153 | when uploading, every valid record is upserted exactly once, in order, in batches no larger than the batch size, and the count returned is their number |
| IndexBuild.BuildWithoutUpload | python/src/indexer/build.py:88-153 | with the lenient report fixed (see ## Findings), a dry run or a missing client upserts nothing and returns 0, lenient building never fails, and the collection is ensured exactly when uploading |
| Retrieval.Converted | python/src/indexer/retrieval.py:71-95 | each hit of a field gives one result |
| Retrieval.AppendHits | python/src/indexer/retrieval.py:83-95 | the inner loop appends one result per hit of the field, in hit order, tagged with the field |
| Retrieval.RetrieveSimilarCode | python/src/indexer/retrieval.py:55-113 | the field loop and sort give the validated, merged, sorted and limited results |
| Retrieval.FieldsValidated | python/src/indexer/retrieval.py:55-62 | without a field list all four fields are searched; the request is refused exactly when a name is not one of the four, reporting exactly the unknown names |
| Retrieval.ResultTagged | python/src/indexer/retrieval.py:71-95 | every result comes from a hit of a searched field whose search did not fail, and is tagged with that field |
| Retrieval.AllSearchesFail | python/src/indexer/retrieval.py:97-100 | when every search fails nothing is found |
| Retrieval.RetrievedResults | python/src/indexer/retrieval.py:103-113 | the results are sorted by score, highest first, are as many as the limit allows, are drawn from the hits found, no hit left out scores above a kept one, and the total counts them |
| Retrieval.TiesKeepFieldOrder | python/src/indexer/retrieval.py:103 | among results of equal score the order is the order of the fields and of their hits |
| Retrieval.ByFieldOnly | python/src/indexer/retrieval.py:116-142 | searching one field is refused exactly when the field is not one of the four, and gives only results tagged with it |
| RetrievalCli.Pieces | python/src/bin/retrieval.py:80 | the option splits into one stripped piece per comma plus one, in order |
| RetrievalCli.ParseAll | python/src/bin/retrieval.py:77-78 | "all", in any letter case, names the four fields |
| RetrievalCli.ParseFieldsChecked | python/src/bin/retrieval.py:80-86 | any other option is accepted exactly when every stripped piece is a field name, giving the pieces in order; a refusal reports exactly the pieces that are not field names |
| RetrievalCli.ParseJoinRoundTrip | python/src/bin/retrieval.py:73-86 | a non-empty list of field names written with commas parses back to that list |
| RetrievalCli.ParsedFieldsAccepted | python/src/bin/retrieval.py:73-86 | whatever the option accepts, retrieval accepts |
| RetrievalCli.Truncated | python/src/bin/retrieval.py:56-66 | a content of at most the limit is shown whole; a longer one is shown as its first characters up to the limit followed by "..." |
| RetrievalCli.Title | python/src/bin/retrieval.py:60 | title case keeps the length of the text |
| RetrievalCli.FieldTitles | python/src/bin/retrieval.py:60 | the four field names are captioned Signature, Identifiers, Code_Body and Doc_Comment |
| RetrievalCli.AppendResultLines | python/src/bin/retrieval.py:37-68 | the lines added for one result are its heading, its known metadata, its content and code when details are shown, and an empty line |
| RetrievalCli.FormatResultText | python/src/bin/retrieval.py:26-70 | the text is the no-results message, or the header lines and each result's block, joined with line breaks |
| RetrievalCli.ResultBlock | python/src/bin/retrieval.py:38-68 | a block opens with the result's heading and closes with an empty line; brief mode shows only the metadata between, and details add one line for a non-empty field content and one for the code text |
| RetrievalCli.LinesShownIff | python/src/bin/retrieval.py:48-49 | the line range is shown exactly when both its ends are known |
| RetrievalCli.BriefHasNoCode | python/src/bin/retrieval.py:62-66 | brief mode shows no code line |
| RetrievalCli.FormattedLines | python/src/bin/retrieval.py:70 | splitting the text at line breaks gives back its lines, when no shown value holds a line break |

## Left out

- Reading files, walking directories and writing output are not modelled: the project tree is a given list of (path, content) entries, an analysed file arrives as its reports, an input file of the indexer as the objects it yielded and whether reading then failed, and the generated test file as the text written.
- Parsing Rust source with `syn` and generating tokens with `quote!` are not modelled: the complexity visitor walks a small abstract syntax tree with one constructor per expression kind it reacts to, and the code generator's items are datatypes naming what each generated test or benchmark does.
- The analyzer's identifier collection walks the syntax tree; only its order-preserving dedup and the joining are modelled.
- The language-model requests, the HTTP client, the daemon and its client are not modelled; the model's reply is an input to the test generator, and the suggestion generator is modelled only up to the blank-diff answer.
- `git apply --check` runs an external process: its verdict is a parameter of `Suggestion.ValidateSuggestion`.
- Embeddings and the vector store are foreign services: retrieval takes the store as a function from a field name to its hits, or to `None` when that search raises, and a build records each upsert as the batch of points sent, each vector as the text embedded for it.
- The md5-derived point ids and the sha256 record ids are opaque: a point keeps the record's id.
- Floating point is not modelled: the averages and percentages of the statistics command, the average-impact priority bands of the performance analyzer, the average cyclomatic complexity of the generated report, and the four-decimal score in the retrieval text, where the score is an integer and printed as one.
- Console printing, colours, emoji and timing are not modelled.
- Text is ASCII: Python's `\b`, `\s`, `str.lower`, `str.title` and `str.strip` and Rust's `char::is_whitespace` are restricted to their ASCII behaviour.
- Integers are unbounded: the Rust tools' `usize` and `u32` arithmetic cannot overflow on realistic reports, so wrap-around is not modelled; only `exit_nesting`'s saturation at 0 is written out.
- RetrievalCli.ParseAll: `list(valid_fields)` returns the four names in Python's set iteration order, which the language does not fix; the model returns them in declaration order.
- Suggestion.ExtractDiffContext: the recorded change types and item kinds are sets, so their rendering as text, which follows Python's set order, is not modelled.
- Scanner.RecordsFramingRoundTrip: `serde_json`'s serialisation is not modelled; each record is taken to be one JSON value (Framed), which is what serialising a struct gives.
- Workflow.FindRelevantFile: `Path.exists()` asks the file system; here it is membership of the path's text in a given set of existing paths.
- Workflow.ParsePath: on POSIX `pathlib` keeps exactly two leading slashes (`//a`) as a root of their own; the model reads them as a single `/`. Only POSIX separators are modelled.
- IndexBuild.Batched: requires a batch size of at least 1; Python's `range` raises for a step of 0 and yields nothing for a negative one, and neither case is modelled.
- IndexBuild.CoerceInt: Python's `int()` also accepts underscores between digits; only surrounding whitespace, an optional sign and decimal digits are modelled. JSON numbers arrive already as integers, and JSON floats and booleans are not represented (`int()` would truncate a float and read `true` as 1). Null, arrays and objects are modelled: they raise a TypeError.
- IndexBuild.BuildIndex: the contract describes the build with the lenient report fixed. As written, a lenient build that meets an invalid record, a TypeError or an unreadable file raises a NameError and returns no count; IndexBuild.AsWrittenLenientRaises states when.
- Retrieval.RetrieveSimilarCode: scores are integers rather than floats; the order they induce, and so the sort and the limit, are the same.
- Workflow.CollectProjectContext: an exception raised while walking the project is modelled as the listing failing as a whole, which yields no context.
- Complexity.ItemReport: items other than functions, impl blocks and inline modules (a trait with default methods, a `const` whose value is a block) report nothing, although the default visit of the source would also report functions nested in their bodies.
- Complexity.ComplexityVisitor: `line_count` is never set by the source and stays 0 in the model.
- The performance analyzer's per-function detail lines and flamegraph commands, and the code generator's documentation text other than the recommendation line, are console or token output and are not modelled.

## Findings

| source | as written | input that shows it | evidently intended | confidence | as-written member | corrected member |
|---|---|---|---|---|---|---|
| python/src/indexer/build.py:103 | the lenient path reports a bad record or unreadable file on `sys.stderr`, but `sys` is never imported, so the report raises a NameError, which the outer handler reports the same way and re-raises | one input file holding a single record with kind `"enum"`, built without `strict` | the bad record is reported and skipped, and the build goes on with the valid records | not executed | IndexBuild.UnimportedSysRaises | IndexBuild.LenientGatherSkips |
