// The retrieval command line: the `--fields` option is parsed into the
// field names to search, and the retrieval results are rendered as text,
// one line per item, with long contents truncated.

module RetrievalCli {
  import opened Common
  import opened Retrieval

  // ---------------------------------------------------------------------
  // Parsing the field list

  function StripAll(parts: seq<string>): (r: seq<string>)
    ensures |r| == |parts|
    ensures forall k :: 0 <= k < |parts| ==> r[k] == PyStrip(parts[k])
  {
    seq(|parts|, k requires 0 <= k < |parts| => PyStrip(parts[k]))
  }

  /** The comma-separated pieces of the option, stripped, in order. */
  function Pieces(s: string): (r: seq<string>)
    ensures |r| == CountChar(s, ',') + 1
    ensures forall k :: 0 <= k < |r| ==> r[k] == PyStrip(Split(s, ',')[k])
  {
    StripAll(Split(s, ','))
  }

  /** `parse_fields`: "all" in any letter case names the four fields;
      otherwise the comma-separated names, stripped, in the order given,
      are accepted only if every one is a field name. */
  function ParseFields(s: string): Result<seq<string>, RetrievalError> {
    if Lower(s) == "all" then Ok(FieldNames)
    else
      var fields := Pieces(s);
      var invalid := InvalidNames(fields);
      if invalid != {} then Err(InvalidFieldNames(invalid)) else Ok(fields)
  }

  /** "all" is recognised whatever the case of its letters. */
  lemma ParseAll()
    ensures ParseFields("all") == Ok(FieldNames)
    ensures ParseFields("ALL") == Ok(FieldNames)
    ensures ParseFields("All") == Ok(FieldNames)
  {
    assert Lower("ALL") == "all";
    assert Lower("All") == "all";
  }

  /** An accepted list holds only field names, one per comma-separated
      piece; a refused one reports exactly the pieces that are not field
      names, after stripping. */
  lemma ParseFieldsChecked(s: string, name: string)
    requires Lower(s) != "all"
    ensures ParseFields(s).Ok? ==>
      ParseFields(s).value == Pieces(s) &&
      forall k :: 0 <= k < |Pieces(s)| ==> Pieces(s)[k] in ValidFields
    ensures ParseFields(s).Err? <==> exists k :: 0 <= k < |Pieces(s)| && Pieces(s)[k] !in ValidFields
    ensures ParseFields(s).Err? ==>
      (name in ParseFields(s).error.names <==> name in Pieces(s) && name !in ValidFields)
  {
    var fields := Pieces(s);
    if exists k :: 0 <= k < |fields| && fields[k] !in ValidFields {
      var k :| 0 <= k < |fields| && fields[k] !in ValidFields;
      assert fields[k] in InvalidNames(fields);
    } else {
      assert InvalidNames(fields) == {};
    }
  }

  lemma ValidFieldShape(name: string)
    requires name in ValidFields
    ensures |name| >= 9 && ',' !in name
    ensures PyStrip(name) == name
  {
    assert name[0] != ' ' && name[|name| - 1] != ' ';
    assert !PyIsSpace(name[0]) && !PyIsSpace(name[|name| - 1]);
    assert PyLStrip(name) == name;
  }

  /** A list whose first name is longer than "all" does not read as "all". */
  lemma JoinNotAll(fields: seq<string>)
    requires |fields| >= 1 && |fields[0]| >= 9
    ensures Lower(Join(fields, ",")) != "all"
  {
    var s := Join(fields, ",");
    assert |s| >= |fields[0]|;
    assert |Lower(s)| != |"all"|;
  }

  lemma StripAllValid(fields: seq<string>)
    requires forall k :: 0 <= k < |fields| ==> fields[k] in ValidFields
    ensures StripAll(fields) == fields
  {
    forall k | 0 <= k < |fields| ensures PyStrip(fields[k]) == fields[k] {
      ValidFieldShape(fields[k]);
    }
  }

  /** Writing a list of field names with commas and parsing it gives the
      list back. */
  lemma ParseJoinRoundTrip(fields: seq<string>)
    requires |fields| >= 1
    requires forall k :: 0 <= k < |fields| ==> fields[k] in ValidFields
    ensures ParseFields(Join(fields, ",")) == Ok(fields)
  {
    JoinedNotAll(fields);
    JoinedPieces(fields);
    assert InvalidNames(fields) == {};
  }

  lemma JoinedNotAll(fields: seq<string>)
    requires |fields| >= 1
    requires forall k :: 0 <= k < |fields| ==> fields[k] in ValidFields
    ensures Lower(Join(fields, ",")) != "all"
  {
    ValidFieldShape(fields[0]);
    JoinNotAll(fields);
  }

  lemma JoinedPieces(fields: seq<string>)
    requires |fields| >= 1
    requires forall k :: 0 <= k < |fields| ==> fields[k] in ValidFields
    ensures Pieces(Join(fields, ",")) == fields
  {
    SplitValidJoin(fields);
    StripAllValid(fields);
  }

  lemma SplitValidJoin(fields: seq<string>)
    requires |fields| >= 1
    requires forall k :: 0 <= k < |fields| ==> fields[k] in ValidFields
    ensures Split(Join(fields, ","), ',') == fields
  {
    forall k | 0 <= k < |fields| ensures ',' !in fields[k] {
      ValidFieldShape(fields[k]);
    }
    SplitJoin(fields, ',');
  }

  /** Whatever the option accepts, retrieval accepts. */
  lemma ParsedFieldsAccepted(s: string, query: string, search: string -> Option<seq<Hit>>, limit: int)
    requires ParseFields(s).Ok?
    ensures Retrieved(query, search, limit, Some(ParseFields(s).value)).Ok?
  {
    var fs := ParseFields(s).value;
    if Lower(s) == "all" {
      assert forall k :: 0 <= k < |fs| ==> fs[k] in ValidFields;
    }
    assert InvalidNames(fs) == {};
  }

  // ---------------------------------------------------------------------
  // Rendering the results

  /** A content longer than `n` characters is cut to its first `n`
      followed by "...". */
  function Truncated(s: string, n: nat): (r: string)
    ensures |r| <= n + 3
    ensures |s| <= n ==> r == s
    ensures |s| > n ==> |r| == n + 3 && r[..n] == s[..n] && EndsWith(r, "...")
  {
    if |s| > n then s[..n] + "..." else s
  }

  /** Python `str.title()` on ASCII text: a letter is upper case when it
      follows a non-letter, lower case when it follows a letter. */
  function Title(s: string): (r: string)
    ensures |r| == |s|
  {
    seq(|s|, i requires 0 <= i < |s| => TitleChar(s, i))
  }

  function TitleChar(s: string, i: nat): char
    requires i < |s|
  {
    if !IsAsciiLetter(s[i]) then s[i]
    else if i > 0 && IsAsciiLetter(s[i - 1]) then LowerChar(s[i])
    else UpperChar(s[i])
  }

  lemma FieldTitles()
    ensures Title("signature") == "Signature"
    ensures Title("identifiers") == "Identifiers"
    ensures Title("code_body") == "Code_Body"
    ensures Title("doc_comment") == "Doc_Comment"
  {
  }

  function NoResults(query: string): string { "No results found for query: '" + query + "'" }

  function HeaderLines(rr: RetrievalResults): seq<string> {
    ["Query: '" + rr.queryText + "'",
     "Fields searched: " + Join(rr.fieldsSearched, ", "),
     "Total results: " + NatToString(rr.totalResults),
     ""]
  }

  function Heading(i: nat, r: SearchResult): string {
    "Result " + NatToString(i) + " (score: " + IntToString(r.score) + ", field: " + r.fieldName + "):"
  }

  /** The metadata line for `key`, behind its caption, if `key` is known. */
  function Entry(meta: map<string, string>, key: string, caption: string): seq<string> {
    if key in meta then [caption + meta[key]] else []
  }

  function LineRange(meta: map<string, string>): seq<string> {
    if "start_line" in meta && "end_line" in meta then ["  Lines: " + meta["start_line"] + "-" + meta["end_line"]]
    else []
  }

  function MetaLines(meta: map<string, string>): seq<string> {
    Entry(meta, "qual_symbol", "  Symbol: ") + Entry(meta, "kind", "  Kind: ") + Entry(meta, "path", "  Path: ") + LineRange(meta)
  }

  function FieldContent(r: SearchResult): string {
    if r.fieldName in r.vectorFields then r.vectorFields[r.fieldName] else ""
  }

  function ContentLines(r: SearchResult, showDetails: bool): seq<string> {
    if showDetails && FieldContent(r) != "" then ["  " + Title(r.fieldName) + ": " + Truncated(FieldContent(r), 200)]
    else []
  }

  function CodeLines(r: SearchResult, showDetails: bool): seq<string> {
    if "text" in r.meta && showDetails then ["  Code: " + Truncated(r.meta["text"], 300)] else []
  }

  /** The block of lines of the `i`-th result, numbered from 1. */
  function ResultLines(i: nat, r: SearchResult, showDetails: bool): seq<string> {
    [Heading(i, r)] + MetaLines(r.meta) + ContentLines(r, showDetails) + CodeLines(r, showDetails) + [""]
  }

  function BodyLines(results: seq<SearchResult>, showDetails: bool): seq<string>
    decreases |results|
  {
    if results == [] then []
    else BodyLines(results[..|results| - 1], showDetails) + ResultLines(|results|, results[|results| - 1], showDetails)
  }

  function Lines(rr: RetrievalResults, showDetails: bool): seq<string> {
    HeaderLines(rr) + BodyLines(rr.results, showDetails)
  }

  /** The lines of the `i`-th result, appended to `before`. */
  method AppendResultLines(before: seq<string>, i: nat, result: SearchResult, showDetails: bool)
    returns (output: seq<string>)
    ensures output == before + ResultLines(i, result, showDetails)
  {
    var meta := result.meta;
    output := before;
    ghost var symbol, kind, path, range :=
      Entry(meta, "qual_symbol", "  Symbol: "), Entry(meta, "kind", "  Kind: "),
      Entry(meta, "path", "  Path: "), LineRange(meta);
    ghost var content, code := ContentLines(result, showDetails), CodeLines(result, showDetails);
    output := output + [Heading(i, result)];
    ghost var step := output;
    if "qual_symbol" in meta {
      output := output + ["  Symbol: " + meta["qual_symbol"]];
    }
    assert output == step + symbol;
    step := output;
    if "kind" in meta {
      output := output + ["  Kind: " + meta["kind"]];
    }
    assert output == step + kind;
    step := output;
    if "path" in meta {
      output := output + ["  Path: " + meta["path"]];
    }
    assert output == step + path;
    step := output;
    if "start_line" in meta && "end_line" in meta {
      output := output + ["  Lines: " + meta["start_line"] + "-" + meta["end_line"]];
    }
    assert output == step + range;
    step := output;
    if showDetails {
      var fieldContent := if result.fieldName in result.vectorFields then result.vectorFields[result.fieldName] else "";
      if fieldContent != "" {
        if |fieldContent| > 200 {
          fieldContent := fieldContent[..200] + "...";
        }
        output := output + ["  " + Title(result.fieldName) + ": " + fieldContent];
      }
    }
    assert output == step + content;
    step := output;
    if "text" in meta && showDetails {
      var text := meta["text"];
      if |text| > 300 {
        text := text[..300] + "...";
      }
      output := output + ["  Code: " + text];
    }
    assert output == step + code;
    output := output + [""];
    BlockAppended(before, Heading(i, result), symbol, kind, path, range, content, code);
    assert ResultLines(i, result, showDetails) == [Heading(i, result)] + (symbol + kind + path + range) + content + code + [""];
  }

  /** `format_result_text`. */
  function Formatted(rr: RetrievalResults, showDetails: bool): string {
    if rr.results == [] then NoResults(rr.queryText) else Join(Lines(rr, showDetails), "\n")
  }

  method FormatResultText(rr: RetrievalResults, showDetails: bool) returns (formatted: string)
    ensures formatted == Formatted(rr, showDetails)
  {
    if rr.results == [] {
      return "No results found for query: '" + rr.queryText + "'";
    }
    var output: seq<string> := [];
    output := output + ["Query: '" + rr.queryText + "'"];
    output := output + ["Fields searched: " + Join(rr.fieldsSearched, ", ")];
    output := output + ["Total results: " + NatToString(rr.totalResults)];
    output := output + [""];
    for i := 0 to |rr.results|
      invariant output == HeaderLines(rr) + BodyLines(rr.results[..i], showDetails)
    {
      var result := rr.results[i];
      output := AppendResultLines(output, i + 1, result, showDetails);
      ghost var block := ResultLines(i + 1, result, showDetails);
      BodyStep(rr.results, i, showDetails);
      AppendAssoc(HeaderLines(rr), BodyLines(rr.results[..i], showDetails), block);
    }
    assert rr.results[..|rr.results|] == rr.results;
    formatted := Join(output, "\n");
  }

  lemma BodyStep(results: seq<SearchResult>, i: nat, showDetails: bool)
    requires i < |results|
    ensures BodyLines(results[..i + 1], showDetails)
         == BodyLines(results[..i], showDetails) + ResultLines(i + 1, results[i], showDetails)
  {
    assert results[..i + 1][..i] == results[..i];
  }

  lemma BlockAppended(before: seq<string>, head: string, symbol: seq<string>, kind: seq<string>,
                      path: seq<string>, range: seq<string>, content: seq<string>, code: seq<string>)
    ensures before + [head] + symbol + kind + path + range + content + code + [""]
         == before + ([head] + (symbol + kind + path + range) + content + code + [""])
  {
  }

  // ---------------------------------------------------------------------
  // Properties of the rendering

  /** Each result's block opens with its heading, numbered from 1, and
      closes with an empty line; in brief mode it holds only the heading,
      the metadata lines and that empty line, and the detailed mode adds
      one line for a non-empty field content and one for the code text. */
  lemma ResultBlock(i: nat, r: SearchResult)
    ensures var b := ResultLines(i, r, false);
      b[0] == Heading(i, r) && b[|b| - 1] == "" && |b| == |MetaLines(r.meta)| + 2
    ensures |ResultLines(i, r, true)| == |ResultLines(i, r, false)| +
      (if FieldContent(r) != "" then 1 else 0) + (if "text" in r.meta then 1 else 0)
  {
  }

  /** The line range is shown exactly when both of its ends are known. */
  lemma LinesShownIff(meta: map<string, string>)
    ensures (exists l :: l in MetaLines(meta) && StartsWith(l, "  Lines: ")) <==>
      "start_line" in meta && "end_line" in meta
  {
    var m := MetaLines(meta);
    forall l | l in Entry(meta, "qual_symbol", "  Symbol: ") + Entry(meta, "kind", "  Kind: ") + Entry(meta, "path", "  Path: ")
      ensures !StartsWith(l, "  Lines: ")
    {
      assert l[2] != 'L';
    }
    if "start_line" in meta && "end_line" in meta {
      var l := "  Lines: " + meta["start_line"] + "-" + meta["end_line"];
      assert l in m;
      assert l[..9] == "  Lines: ";
    }
  }

  /** Brief mode shows no code line. */
  lemma BriefHasNoCode(i: nat, r: SearchResult, l: string)
    requires l in ResultLines(i, r, false)
    ensures !StartsWith(l, "  Code: ")
  {
    var meta := r.meta;
    assert ResultLines(i, r, false) == [Heading(i, r)] + MetaLines(meta) + [""];
    if l == Heading(i, r) {
      Differs(l, "  Code: ", 0);
    } else if l in Entry(meta, "qual_symbol", "  Symbol: ") {
      Differs(l, "  Code: ", 2);
    } else if l in Entry(meta, "kind", "  Kind: ") {
      Differs(l, "  Code: ", 2);
    } else if l in Entry(meta, "path", "  Path: ") {
      Differs(l, "  Code: ", 2);
    } else if l in LineRange(meta) {
      Differs(l, "  Code: ", 2);
    } else {
      assert l == "";
      Differs(l, "  Code: ", 0);
    }
  }

  lemma Differs(l: string, p: string, k: nat)
    requires k < |p| && (k >= |l| || l[k] != p[k])
    ensures !StartsWith(l, p)
  {
  }

  /** The text consists of the lines it was built from: splitting it at
      the line breaks gives them back, provided no shown value holds a
      line break itself. */
  lemma {:induction false} FormattedLines(rr: RetrievalResults, showDetails: bool)
    requires rr.results != []
    requires forall k :: 0 <= k < |Lines(rr, showDetails)| ==> '\n' !in Lines(rr, showDetails)[k]
    ensures Split(Formatted(rr, showDetails), '\n') == Lines(rr, showDetails)
  {
    SplitJoin(Lines(rr, showDetails), '\n');
  }
}
