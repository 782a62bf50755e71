// The complexity command-line tool: the single-file listing with its
// threshold, the directory listing with its high-only filter and
// descending sort, the rating distribution of the statistics command and
// the JSON export.  Reading files and walking directories are outside the
// model: each file arrives as the result of analysing it, `None` when it
// could not be read or parsed.

module ComplexityCli {
  import opened Common
  import opened Sorting
  import opened Complexity

  function CyclomaticKey(fc: FunctionComplexity): int {
    fc.cyclomaticComplexity
  }

  // ---------------------------------------------------------------------
  // Single file

  /** The functions the threshold lets through. */
  function AboveThreshold(threshold: Option<nat>): FunctionComplexity -> bool {
    (fc: FunctionComplexity) => threshold.None? || fc.cyclomaticComplexity >= threshold.value
  }

  datatype FileListing = NoFunctions | Listing(shown: seq<FunctionComplexity>, total: nat)

  /** `analyze_single_file` after the analysis: the functions shown in
      order and the total reported. */
  method ListFile(functions: seq<FunctionComplexity>, threshold: Option<nat>)
    returns (r: FileListing)
    ensures functions == [] <==> r.NoFunctions?
    ensures r.Listing? ==> r.shown == Filter(functions, AboveThreshold(threshold))
    ensures r.Listing? ==> r.total == |functions|
  {
    if functions == [] {
      return NoFunctions;
    }
    var shown := ShownFunctions(functions, threshold);
    return Listing(shown, |functions|);
  }

  /** The printing loop, skipping the functions below the threshold. */
  method ShownFunctions(functions: seq<FunctionComplexity>, threshold: Option<nat>)
    returns (shown: seq<FunctionComplexity>)
    ensures shown == Filter(functions, AboveThreshold(threshold))
  {
    shown := [];
    for i := 0 to |functions|
      invariant shown == Filter(functions[..i], AboveThreshold(threshold))
    {
      FilterPrefixStep(functions, i, AboveThreshold(threshold));
      if threshold.Some? && functions[i].cyclomaticComplexity < threshold.value {
        continue;
      }
      shown := shown + [functions[i]];
    }
    assert functions[..|functions|] == functions;
  }

  /** The threshold hides exactly the functions below it, keeping the
      others in order, while the total still counts every function;
      without a threshold every function is shown. */
  lemma ThresholdHides(functions: seq<FunctionComplexity>, threshold: Option<nat>, fc: FunctionComplexity)
    ensures fc in Filter(functions, AboveThreshold(threshold)) <==>
      fc in functions && (threshold.None? || fc.cyclomaticComplexity >= threshold.value)
    ensures threshold.None? ==> Filter(functions, AboveThreshold(threshold)) == functions
  {
    FilterMembers(functions, AboveThreshold(threshold), fc);
    if threshold.None? {
      FilterAll(functions, AboveThreshold(threshold));
    }
  }

  lemma {:induction false} FilterMembers<T>(xs: seq<T>, p: T -> bool, x: T)
    ensures x in Filter(xs, p) <==> x in xs && p(x)
  {
    if xs != [] {
      FilterMembers(xs[1..], p, x);
      assert xs == [xs[0]] + xs[1..];
    }
  }

  lemma {:induction false} FilterAll<T>(xs: seq<T>, p: T -> bool)
    requires forall i :: 0 <= i < |xs| ==> p(xs[i])
    ensures Filter(xs, p) == xs
  {
    if xs != [] {
      FilterAll(xs[1..], p);
      assert xs == [xs[0]] + xs[1..];
    }
  }

  // ---------------------------------------------------------------------
  // Directory

  predicate IsHigh(fc: FunctionComplexity) {
    fc.returnComplexity == High || fc.returnComplexity == VeryHigh
  }

  /** The functions gathered from the files that could be analysed, in
      file order. */
  function Gathered(files: seq<Option<seq<FunctionComplexity>>>): seq<FunctionComplexity> {
    if files == [] then []
    else
      var last := files[|files| - 1];
      Gathered(files[..|files| - 1]) + (if last.Some? then last.value else [])
  }

  function Analysed(files: seq<Option<seq<FunctionComplexity>>>): nat {
    if files == [] then 0
    else Analysed(files[..|files| - 1]) + (if files[|files| - 1].Some? then 1 else 0)
  }

  /** What the directory listing shows. */
  function DirectoryListing(files: seq<Option<seq<FunctionComplexity>>>, highOnly: bool)
    : seq<FunctionComplexity>
  {
    var all := Gathered(files);
    SortDesc(if highOnly then Filter(all, IsHigh) else all, CyclomaticKey)
  }

  /** `all_functions.retain(...)` for the high-only option. */
  method RetainHigh(all: seq<FunctionComplexity>) returns (kept: seq<FunctionComplexity>)
    ensures kept == Filter(all, IsHigh)
  {
    kept := [];
    for i := 0 to |all|
      invariant kept == Filter(all[..i], IsHigh)
    {
      FilterSnoc(all[..i], all[i], IsHigh);
      assert all[..i + 1] == all[..i] + [all[i]];
      if IsHigh(all[i]) {
        kept := kept + [all[i]];
      }
    }
    assert all[..|all|] == all;
  }

  /** `analyze_directory` after the walk: the functions of every analysed
      file are gathered and the files counted, then filtered and sorted. */
  method AnalyzeDirectory(files: seq<Option<seq<FunctionComplexity>>>, highOnly: bool)
    returns (listed: seq<FunctionComplexity>, fileCount: nat)
    ensures listed == DirectoryListing(files, highOnly)
    ensures fileCount == Analysed(files)
  {
    var all: seq<FunctionComplexity> := [];
    fileCount := 0;
    for i := 0 to |files|
      invariant all == Gathered(files[..i]) && fileCount == Analysed(files[..i])
    {
      assert files[..i + 1][..i] == files[..i];
      match files[i] {
        case Some(functions) =>
          all := all + functions;
          fileCount := fileCount + 1;
        case None =>
          assert all + [] == all;
      }
    }
    assert files[..|files|] == files;
    if highOnly {
      all := RetainHigh(all);
    }
    listed := SortDesc(all, CyclomaticKey);
  }

  /** The listing is ordered by descending cyclomatic score; it holds
      exactly the gathered functions (the high-rated ones under the
      high-only option), each as often as gathered; equal scores keep their
      gathering order. */
  lemma DirectoryListingFacts(files: seq<Option<seq<FunctionComplexity>>>, highOnly: bool, k: int)
    ensures SortedDesc(DirectoryListing(files, highOnly), CyclomaticKey)
    ensures highOnly ==> multiset(DirectoryListing(files, highOnly)) == multiset(Filter(Gathered(files), IsHigh))
    ensures !highOnly ==> multiset(DirectoryListing(files, highOnly)) == multiset(Gathered(files))
    ensures Filter(DirectoryListing(files, highOnly), HasKey(CyclomaticKey, k))
         == Filter(if highOnly then Filter(Gathered(files), IsHigh) else Gathered(files), HasKey(CyclomaticKey, k))
  {
    var kept := if highOnly then Filter(Gathered(files), IsHigh) else Gathered(files);
    SortDescSorted(kept, CyclomaticKey);
    SortDescPermutation(kept, CyclomaticKey);
    SortDescStable(kept, CyclomaticKey, k);
  }

  /** Under the high-only option every listed function is rated High or
      Very High, and every such gathered function is listed. */
  lemma HighOnlyKeepsExactlyHigh(files: seq<Option<seq<FunctionComplexity>>>, fc: FunctionComplexity)
    ensures fc in DirectoryListing(files, true) <==> fc in Gathered(files) && IsHigh(fc)
  {
    var kept := Filter(Gathered(files), IsHigh);
    SortDescPermutation(kept, CyclomaticKey);
    assert fc in DirectoryListing(files, true) <==> fc in multiset(DirectoryListing(files, true));
    assert fc in kept <==> fc in multiset(kept);
    FilterMembers(Gathered(files), IsHigh, fc);
  }

  // ---------------------------------------------------------------------
  // Statistics

  function RatedAs(r: Rating): FunctionComplexity -> bool {
    (fc: FunctionComplexity) => fc.returnComplexity == r
  }

  datatype Distribution = Distribution(low: nat, medium: nat, high: nat, veryHigh: nat)

  /** The rating distribution of the statistics command. */
  function DistributionOf(fs: seq<FunctionComplexity>): Distribution {
    Distribution(Count(fs, RatedAs(Low)), Count(fs, RatedAs(Medium)),
                 Count(fs, RatedAs(High)), Count(fs, RatedAs(VeryHigh)))
  }

  /** Every function falls into exactly one band, so the four counts add up
      to the total. */
  lemma {:induction false} DistributionTotal(fs: seq<FunctionComplexity>)
    ensures var d := DistributionOf(fs); d.low + d.medium + d.high + d.veryHigh == |fs|
  {
    if fs != [] {
      DistributionTotal(fs[1..]);
    }
  }

  /** The five most complex functions the statistics command names. */
  function TopFive(fs: seq<FunctionComplexity>): (r: seq<FunctionComplexity>)
    ensures |r| == Min(5, |fs|)
  {
    var sorted := SortDesc(fs, CyclomaticKey);
    sorted[..Min(5, |fs|)]
  }

  /** None of the functions left out of the top five is more complex than
      any named in it. */
  lemma TopFiveDominates(fs: seq<FunctionComplexity>, i: nat, j: nat)
    requires i < Min(5, |fs|) <= j < |fs|
    ensures TopFive(fs)[i].cyclomaticComplexity >= SortDesc(fs, CyclomaticKey)[j].cyclomaticComplexity
  {
    SortDescSorted(fs, CyclomaticKey);
    assert CyclomaticKey(SortDesc(fs, CyclomaticKey)[i]) >= CyclomaticKey(SortDesc(fs, CyclomaticKey)[j]);
  }

  // ---------------------------------------------------------------------
  // JSON export

  /** A key or value between quotes, as the export writes it: without
      escaping. */
  function Quoted(s: string): string {
    "\"" + s + "\""
  }

  /** One `"key": value,` line of an object. */
  function Entry(key: string, value: string): string {
    "    " + Quoted(key) + ": " + value + ","
  }

  /** A list-valued field, present only when the list is non-empty. */
  function OptionalPair(key: string, values: seq<string>): (r: seq<(string, string)>)
    ensures |r| == if values == [] then 0 else 1
  {
    if values == [] then [] else [(key, Quoted(Join(values, ", ")))]
  }

  /** The keys and values of an object's fields, before the rating. */
  function FieldPairs(fc: FunctionComplexity): seq<(string, string)> {
    [ ("name", Quoted(fc.name)),
      ("cyclomatic_complexity", NatToString(fc.cyclomaticComplexity)),
      ("cognitive_complexity", NatToString(fc.cognitiveComplexity)),
      ("parameter_count", NatToString(fc.parameterCount)),
      ("unsafe_blocks", NatToString(fc.details.unsafeBlocks)),
      ("generic_parameters", NatToString(fc.details.genericParameters)) ] +
    OptionalPair("function_call_chain", fc.details.functionCallChain) +
    OptionalPair("macro_invocations", fc.details.macroInvocations) +
    OptionalPair("module_dependencies", fc.details.moduleDependencies)
  }

  function Fields(fc: FunctionComplexity): (r: seq<string>)
    ensures |r| == |FieldPairs(fc)|
  {
    var pairs := FieldPairs(fc);
    seq(|pairs|, i requires 0 <= i < |pairs| => Entry(pairs[i].0, pairs[i].1))
  }

  /** The last field, without a trailing comma. */
  function RatingLine(fc: FunctionComplexity): string {
    "    " + Quoted("rating") + ": " + Quoted(RatingText(fc.returnComplexity))
  }

  function CloseLine(last: bool): string {
    if last then "  }" else "  },"
  }

  /** The lines of one exported object. */
  function ObjectLines(fc: FunctionComplexity, last: bool): seq<string> {
    ["  {"] + Fields(fc) + [RatingLine(fc), CloseLine(last)]
  }

  function Objects(fs: seq<FunctionComplexity>): seq<seq<string>> {
    seq(|fs|, i requires 0 <= i < |fs| => ObjectLines(fs[i], i == |fs| - 1))
  }

  /** The lines `export_to_json` writes, each followed by a newline. */
  function ExportLines(fs: seq<FunctionComplexity>): seq<string> {
    ["["] + Flatten(Objects(fs)) + ["]"]
  }

  /** `export_to_json`, writing line by line. */
  method ExportJson(fs: seq<FunctionComplexity>) returns (lines: seq<string>)
    ensures lines == ExportLines(fs)
  {
    lines := ["["];
    ghost var objs := Objects(fs);
    for i := 0 to |fs|
      invariant lines == ["["] + Flatten(objs[..i])
    {
      var obj := ObjectLines(fs[i], i == |fs| - 1);
      FlattenSnocStep(lines, ["["], objs, i, obj);
      lines := lines + obj;
    }
    assert objs[..|fs|] == objs;
    lines := lines + ["]"];
  }

  lemma FlattenSnocStep<T>(lines: seq<T>, head: seq<T>, xss: seq<seq<T>>, i: nat, x: seq<T>)
    requires i < |xss| && lines == head + Flatten(xss[..i]) && x == xss[i]
    ensures lines + x == head + Flatten(xss[..i + 1])
  {
    FlattenStep(xss, i);
  }

  /** The export opens with `[` and closes with `]`; with no functions
      there is nothing in between. */
  lemma ExportBrackets(fs: seq<FunctionComplexity>)
    ensures ExportLines(fs)[0] == "[" && ExportLines(fs)[|ExportLines(fs)| - 1] == "]"
    ensures fs == [] ==> ExportLines(fs) == ["[", "]"]
  {
  }

  /** Every object's field lines end with a comma, its rating line comes
      last and ends with the closing quote, and its closing brace carries a
      comma exactly when another object follows; it has six fixed fields
      and one more per non-empty list. */
  lemma ObjectShape(fc: FunctionComplexity, last: bool)
    ensures var o := ObjectLines(fc, last);
      |o| == 9 + (if fc.details.functionCallChain == [] then 0 else 1)
               + (if fc.details.macroInvocations == [] then 0 else 1)
               + (if fc.details.moduleDependencies == [] then 0 else 1) &&
      o[|o| - 2] == RatingLine(fc) && o[|o| - 1] == CloseLine(last) &&
      (forall i :: 1 <= i < |o| - 2 ==> EndsWith(o[i], ",")) &&
      EndsWith(RatingLine(fc), "\"")
    ensures EndsWith(CloseLine(last), ",") <==> !last
  {
    var o := ObjectLines(fc, last);
    var f := Fields(fc);
    assert o[1..|o| - 2] == f;
    forall i | 0 <= i < |f| ensures EndsWith(f[i], ",") {
      var pair := FieldPairs(fc)[i];
      EntryEndsWithComma(pair.0, pair.1);
    }
    assert forall i :: 1 <= i < |o| - 2 ==> o[i] == f[i - 1];
    RatingLineEnds(fc);
    var c := CloseLine(last);
    if last {
      assert c[|c| - 1] == '}';
    } else {
      assert c[|c| - 1..] == ",";
    }
  }

  lemma RatingLineEnds(fc: FunctionComplexity)
    ensures EndsWith(RatingLine(fc), "\"")
  {
    var v := Quoted(RatingText(fc.returnComplexity));
    ConcatEnds("\"", RatingText(fc.returnComplexity), "\"");
    EndsWithExtend("    " + Quoted("rating") + ": ", v, "\"");
  }

  lemma EntryEndsWithComma(key: string, value: string)
    ensures EndsWith(Entry(key, value), ",")
  {
    ConcatEnds("    " + Quoted(key) + ": " + value, [], ",");
    assert Entry(key, value) == "    " + Quoted(key) + ": " + value + [] + ",";
  }

  // ---------------------------------------------------------------------
  // String values in the export

  /** A JSON string body read up to its closing quote, as section 7 of
      RFC 8259 defines it for the escapes `\"`, `\\` and `\u00XX`: the
      decoded value and the text after the closing quote, or nothing when
      the body is not closed or an escape is malformed. */
  function ReadString(t: string): Option<(string, string)>
    decreases |t|
  {
    if t == [] then None
    else if t[0] == '"' then Some(([], t[1..]))
    else if t[0] == '\\' then
      if |t| >= 2 && (t[1] == '"' || t[1] == '\\') then
        match ReadString(t[2..])
        case None => None
        case Some(p) => Some(([t[1]] + p.0, p.1))
      else if |t| >= 6 && t[1] == 'u' && t[2] == '0' && t[3] == '0' && IsHexDigit(t[4]) && IsHexDigit(t[5]) then
        match ReadString(t[6..])
        case None => None
        case Some(p) => Some(([(16 * HexValue(t[4]) + HexValue(t[5])) as char] + p.0, p.1))
      else None
    else
      match ReadString(t[1..])
      case None => None
      case Some(p) => Some(([t[0]] + p.0, p.1))
  }

  predicate IsHexDigit(c: char) { '0' <= c <= '9' || 'a' <= c <= 'f' }

  function HexValue(c: char): (v: nat)
    requires IsHexDigit(c)
    ensures v < 16
  {
    if c <= '9' then (c - '0') as nat else (c - 'a') as nat + 10
  }

  function HexDigit(v: nat): (c: char)
    requires v < 16
    ensures IsHexDigit(c) && HexValue(c) == v
  {
    if v < 10 then ('0' as int + v) as char else ('a' as int + v - 10) as char
  }

  /** The escaping section 7 of RFC 8259 requires of one character:
      quotes, backslashes and control characters escaped, everything else
      as it is. */
  function EscapeChar(c: char): string {
    if c == '"' || c == '\\' then ['\\', c]
    else if c < ' ' then ['\\', 'u', '0', '0', HexDigit(c as nat / 16), HexDigit(c as nat % 16)]
    else [c]
  }

  function Escape(s: string): string
    decreases |s|
  {
    if s == [] then [] else EscapeChar(s[0]) + Escape(s[1..])
  }

  /** The string value the export would need: escaped, then quoted. */
  function JsonString(s: string): string {
    "\"" + Escape(s) + "\""
  }

  /** Reading one plain character. */
  lemma ReadPlain(c: char, tail: string)
    requires c != '"' && c != '\\'
    ensures ReadString([c] + tail).Some? <==> ReadString(tail).Some?
    ensures ReadString(tail).Some? ==>
      ReadString([c] + tail) == Some(([c] + ReadString(tail).value.0, ReadString(tail).value.1))
  {
    assert ([c] + tail)[1..] == tail;
  }

  /** Reading an escaped quote or backslash. */
  lemma ReadEscapedChar(c: char, tail: string)
    requires c == '"' || c == '\\'
    ensures ReadString(tail).Some? ==>
      ReadString(['\\', c] + tail) == Some(([c] + ReadString(tail).value.0, ReadString(tail).value.1))
  {
    assert (['\\', c] + tail)[2..] == tail;
  }

  /** Reading a `\u00XX` escape. */
  lemma ReadEscapedControl(c: char, tail: string)
    requires c < ' '
    ensures var hi, lo := HexDigit(c as nat / 16), HexDigit(c as nat % 16);
      ReadString(tail).Some? ==>
      ReadString(['\\', 'u', '0', '0', hi, lo] + tail)
        == Some(([c] + ReadString(tail).value.0, ReadString(tail).value.1))
  {
    var hi, lo := HexDigit(c as nat / 16), HexDigit(c as nat % 16);
    var t := ['\\', 'u', '0', '0', hi, lo] + tail;
    assert t[6..] == tail;
    assert (16 * HexValue(hi) + HexValue(lo)) as char == c;
  }

  /** Reading one escaped character back. */
  lemma ReadEscapeChar(c: char, tail: string)
    requires ReadString(tail).Some?
    ensures ReadString(EscapeChar(c) + tail)
         == Some(([c] + ReadString(tail).value.0, ReadString(tail).value.1))
  {
    if c == '"' || c == '\\' {
      ReadEscapedChar(c, tail);
    } else if c < ' ' {
      ReadEscapedControl(c, tail);
    } else {
      ReadPlain(c, tail);
    }
  }

  /** Reading an escaped value back gives the value and whatever followed
      its closing quote. */
  lemma {:induction false} EscapeRoundTrip(s: string, rest: string)
    ensures ReadString(Escape(s) + ['"'] + rest) == Some((s, rest))
    decreases |s|
  {
    if s == [] {
      assert Escape(s) + ['"'] + rest == ['"'] + rest;
    } else {
      EscapeRoundTrip(s[1..], rest);
      var tail := Escape(s[1..]) + ['"'] + rest;
      assert Escape(s) + ['"'] + rest == EscapeChar(s[0]) + tail;
      ReadEscapeChar(s[0], tail);
      assert [s[0]] + s[1..] == s;
    }
  }

  /** The full value of a quoted JSON string reads back as the value. */
  lemma JsonStringReadsBack(s: string)
    ensures ReadString(JsonString(s)[1..]) == Some((s, []))
  {
    EscapeRoundTrip(s, []);
    assert JsonString(s)[1..] == Escape(s) + ['"'] + [];
  }

  /** As written, the export quotes a name without escaping it: a name
      holding a quote reads back cut short at that quote. */
  lemma UnescapedNameMisread()
    ensures ReadString(Quoted("a\"b")[1..]) == Some(("a", "b\""))
  {
    var t := Quoted("a\"b")[1..];
    var tail := ['"', 'b', '"'];
    assert t == ['a'] + tail;
    assert tail[1..] == ['b', '"'];
    assert ReadString(tail) == Some(([], ['b', '"']));
    ReadPlain('a', tail);
    assert ['a'] + [] == "a";
  }
  /** A value with no quote, no backslash and no control character: every
      identifier, and every `::` or `, ` join of identifiers, is one. */
  predicate NeedsNoEscape(s: string) {
    forall i :: 0 <= i < |s| ==> s[i] != '"' && s[i] != '\\' && s[i] >= ' '
  }

  lemma {:induction false} PlainEscape(s: string)
    requires NeedsNoEscape(s)
    ensures Escape(s) == s
    decreases |s|
  {
    if s != [] {
      PlainEscape(s[1..]);
      assert [s[0]] + s[1..] == s;
    }
  }

  /** What the export writes for a name or list of identifiers is already
      valid JSON: quoting without escaping gives the escaped string, which
      reads back as the value. */
  lemma PlainValueReadsBack(s: string)
    requires NeedsNoEscape(s)
    ensures Quoted(s) == JsonString(s)
    ensures ReadString(Quoted(s)[1..]) == Some((s, []))
  {
    PlainEscape(s);
    JsonStringReadsBack(s);
  }

  /** A name or list of names, as the visitor collects them (identifiers
      joined with `::` or `, `), is exported as valid JSON that reads back
      as itself. */
  lemma IdentifierValueReadsBack(s: string)
    requires forall i :: 0 <= i < |s| ==> IsWordChar(s[i]) || s[i] == ':' || s[i] == ',' || s[i] == ' '
    ensures ReadString(Quoted(s)[1..]) == Some((s, []))
  {
    PlainValueReadsBack(s);
  }
}
