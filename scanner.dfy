// The text-level helpers of the project scanner: which paths are skipped,
// where an item's source text starts and ends, and how the records are
// framed on output.

module Scanner {
  import opened Common

  /** Paths inside a build directory or ending in `.generated.rs` are
      skipped. */
  predicate IsExcluded(path: string) {
    Contains(path, "/target/") || EndsWith(path, ".generated.rs")
  }

  /** Everything under a `target` directory and every generated file is
      skipped. */
  lemma ExcludedPaths(dir: string, file: string)
    ensures IsExcluded(dir + "/target/" + file)
    ensures IsExcluded(dir + ".generated.rs")
  {
    assert OccursAt(dir + "/target/" + file, "/target/", |dir|) by {
      assert (dir + "/target/" + file)[|dir|..|dir| + 8] == "/target/";
    }
    var g := dir + ".generated.rs";
    assert g[|g| - 13..] == ".generated.rs";
  }

  // ---------------------------------------------------------------------
  // Locating an item's text

  /** Line numbers (from 1) and the text of an item. */
  datatype Located = Located(startLine: nat, endLine: nat, text: string)

  /** The text searched for: the keyword, a space and the identifier. */
  function Needle(keyword: string, ident: string): string {
    keyword + " " + ident
  }

  /** The index of the `}` at which the depth, counted from `depth` at
      index `i`, returns to zero, if it ever does. */
  function BraceClose(rest: string, i: nat, depth: int): (r: Option<nat>)
    ensures r.Some? ==> i <= r.value < |rest|
    decreases |rest| - i
  {
    if i >= |rest| then None
    else if rest[i] == '{' then BraceClose(rest, i + 1, depth + 1)
    else if rest[i] == '}' then
      (if depth - 1 == 0 then Some(i) else BraceClose(rest, i + 1, depth - 1))
    else BraceClose(rest, i + 1, depth)
  }

  /** A fragment that ends the item at index `end` of `rest`. */
  function Fragment(start: nat, rest: string, end: nat): Located
    requires end < |rest|
  {
    Located(start, start + CountChar(rest[..end + 1], '\n'), rest[..end + 1])
  }

  /** The item found by its first `<keyword> <ident>`: it ends at the first
      `;` when that comes before any `{`, else at the `}` that closes the
      first `{`; when the needle is missing or the braces never close, the
      text is empty and the end line is 1. */
  function LocateSpec(content: string, ident: string, keyword: string): Located {
    match Find(content, Needle(keyword, ident))
    case None => Located(1, 1, "")
    case Some(pos) => LocateIn(CountChar(content[..pos], '\n') + 1, content[pos..])
  }

  /** The item in the text `rest` that starts with the needle, on line
      `start`. */
  function LocateIn(start: nat, rest: string): Located {
    var sc, b := Find(rest, ";"), Find(rest, "{");
    if sc.Some? && (b.None? || sc.value < b.value) then Fragment(start, rest, sc.value)
    else if b.None? then Located(start, 1, "")
    else Closed(start, rest, b.value)
  }

  method LocateItemText(content: string, ident: string, keyword: string)
    returns (startLine: nat, endLine: nat, text: string)
    ensures Located(startLine, endLine, text) == LocateSpec(content, ident, keyword)
  {
    startLine, endLine, text := 1, 1, "";
    var found := Find(content, keyword + " " + ident);
    if found.Some? {
      var pos := found.value;
      startLine := CountChar(content[..pos], '\n') + 1;
      startLine, endLine, text := LocateInRest(startLine, content[pos..]);
    }
  }

  /** The search for the end of the item, from the needle on. */
  method LocateInRest(start: nat, rest: string) returns (startLine: nat, endLine: nat, text: string)
    ensures Located(startLine, endLine, text) == LocateIn(start, rest)
  {
    startLine, endLine, text := start, 1, "";
    var sc := Find(rest, ";");
    if sc.Some? {
      var bracePos := Find(rest, "{");
      if bracePos.None? || sc.value < bracePos.value {
        var frag := rest[..sc.value + 1];
        text := frag;
        endLine := startLine + CountChar(frag, '\n');
        return;
      }
    }
    var b := Find(rest, "{");
    if b.Some? {
      endLine, text := MatchBraces(start, rest, b.value);
    }
  }

  /** What `BraceClose` leads to: the fragment up to the closing brace, or
      nothing. */
  function Closed(start: nat, rest: string, b: nat): Located {
    match BraceClose(rest, b, 0)
    case Some(i) => Fragment(start, rest, i)
    case None => Located(start, 1, "")
  }

  /** The brace-matching loop from the first `{` at `b`. */
  method MatchBraces(start: nat, rest: string, b: nat) returns (endLine: nat, text: string)
    requires b < |rest|
    ensures Located(start, endLine, text) == Closed(start, rest, b)
  {
    endLine, text := 1, "";
    var depth := 0;
    var i := b;
    while i < |rest|
      invariant b <= i <= |rest|
      invariant text == [] && endLine == 1
      invariant BraceClose(rest, i, depth) == BraceClose(rest, b, 0)
      decreases |rest| - i
    {
      if rest[i] == '{' {
        depth := depth + 1;
      } else if rest[i] == '}' {
        depth := depth - 1;
        if depth == 0 {
          var frag := rest[..i + 1];
          text := frag;
          endLine := start + CountChar(frag, '\n');
          break;
        }
      }
      i := i + 1;
    }
  }

  /** Brace depth of a text: opening minus closing braces. */
  function Depth(s: string): int {
    CountChar(s, '{') as int - CountChar(s, '}') as int
  }

  /** `t[b]` is an opening brace whose block closes exactly at the end of
      `t`: the depth counted from it stays positive on every proper prefix
      and is zero on the whole. */
  predicate ClosesAtEnd(t: string, b: nat) {
    b < |t| && t[b] == '{' && Depth(t[b..]) == 0 &&
    forall k :: b < k < |t| ==> Depth(t[b..k]) > 0
  }

  lemma DepthSnoc(s: string, c: char)
    ensures Depth(s + [c]) == Depth(s) + (if c == '{' then 1 else if c == '}' then -1 else 0)
  {
    CountCharAppend(s, [c], '{');
    CountCharAppend(s, [c], '}');
  }

  /** The depth counted from index `b` stays positive up to index `e`. */
  predicate PositiveUpTo(rest: string, b: nat, e: nat)
    requires b <= e <= |rest|
  {
    forall k :: b < k <= e ==> Depth(rest[b..k]) > 0
  }

  lemma PositiveStep(rest: string, b: nat, i: nat)
    requires b < i < |rest| && PositiveUpTo(rest, b, i) && Depth(rest[b..i + 1]) > 0
    ensures PositiveUpTo(rest, b, i + 1)
  {
  }

  /** What `BraceClose` finds, stated by depth: from a positive depth at
      `i`, the result is the first index whose prefix brings the depth to
      zero, and there is none when the depth never gets there. */
  lemma {:induction false} BraceCloseDepth(rest: string, b: nat, i: nat, depth: int)
    requires b < i <= |rest| && depth > 0 && depth == Depth(rest[b..i])
    requires PositiveUpTo(rest, b, i)
    ensures BraceClose(rest, i, depth).Some? ==>
      var e := BraceClose(rest, i, depth).value;
      rest[e] == '}' && Depth(rest[b..e + 1]) == 0 && PositiveUpTo(rest, b, e)
    ensures BraceClose(rest, i, depth).None? ==> PositiveUpTo(rest, b, |rest|)
    decreases |rest| - i
  {
    if i < |rest| {
      var c := rest[i];
      var d := Depth(rest[b..i + 1]);
      assert rest[b..i + 1] == rest[b..i] + [c];
      DepthSnoc(rest[b..i], c);
      if c == '}' && depth - 1 == 0 {
        assert BraceClose(rest, i, depth) == Some(i);
      } else {
        assert BraceClose(rest, i, depth) == BraceClose(rest, i + 1, d);
        PositiveStep(rest, b, i);
        BraceCloseDepth(rest, b, i + 1, d);
      }
    }
  }

  /** The text ends at the first `;` with no `{` before it, or at the `}`
      that closes the first `{` with no `;` before that brace. */
  ghost predicate ItemText(t: string) {
    t != [] &&
    ((t[|t| - 1] == ';' && '{' !in t && ';' !in t[..|t| - 1]) ||
     (t[|t| - 1] == '}' &&
      exists b: nat :: ClosesAtEnd(t, b) && '{' !in t[..b] && ';' !in t[..b]))
  }

  /** The shape of the located text: empty, or starting at the first
      occurrence of the needle and shaped as an item text; the start line
      counts the newlines before the needle and the end line adds the
      text's newlines; an empty text has end line 1. */
  lemma LocatedShape(content: string, ident: string, keyword: string)
    ensures var r := LocateSpec(content, ident, keyword);
      Find(content, Needle(keyword, ident)).None? ==> r == Located(1, 1, "")
    ensures var r := LocateSpec(content, ident, keyword);
      Find(content, Needle(keyword, ident)).Some? ==>
        var pos := Find(content, Needle(keyword, ident)).value;
        r.startLine == CountChar(content[..pos], '\n') + 1 &&
        (r.text == [] ==> r.endLine == 1) &&
        (r.text != [] ==>
           StartsWith(content[pos..], r.text) && ItemText(r.text) &&
           r.endLine == r.startLine + CountChar(r.text, '\n'))
  {
    var needle := Needle(keyword, ident);
    if Find(content, needle).Some? {
      var pos := Find(content, needle).value;
      LocateInShape(CountChar(content[..pos], '\n') + 1, content[pos..]);
    }
  }

  lemma LocateInShape(start: nat, rest: string)
    ensures var r := LocateIn(start, rest);
      r.startLine == start && (r.text == [] ==> r.endLine == 1) &&
      (r.text != [] ==>
         StartsWith(rest, r.text) && ItemText(r.text) &&
         r.endLine == start + CountChar(r.text, '\n'))
  {
    var sc, b := Find(rest, ";"), Find(rest, "{");
    if sc.Some? && (b.None? || sc.value < b.value) {
      SemicolonText(rest, sc.value, b);
    } else if b.Some? && BraceClose(rest, b.value, 0).Some? {
      BraceText(rest, b.value, sc);
    }
  }

  lemma SemicolonText(rest: string, at: nat, b: Option<nat>)
    requires Find(rest, ";") == Some(at) && b == Find(rest, "{")
    requires b.None? || at < b.value
    ensures ItemText(rest[..at + 1])
  {
    FirstCharFacts(rest, ';', at);
    NoCharBefore(rest, '{', b, at + 1);
    var t := rest[..at + 1];
    assert t[..|t| - 1] == rest[..at];
  }

  lemma BraceText(rest: string, bb: nat, sc: Option<nat>)
    requires Find(rest, "{") == Some(bb) && sc == Find(rest, ";")
    requires sc.None? || sc.value > bb
    requires BraceClose(rest, bb, 0).Some?
    ensures ItemText(rest[..BraceClose(rest, bb, 0).value + 1])
  {
    FirstCharFacts(rest, '{', bb);
    var e := BraceClose(rest, bb, 0).value;
    assert BraceClose(rest, bb, 0) == BraceClose(rest, bb + 1, 1);
    assert rest[bb..bb + 1] == "{";
    assert Depth(rest[bb..bb + 1]) == 1;
    assert PositiveUpTo(rest, bb, bb + 1);
    BraceCloseDepth(rest, bb, bb + 1, 1);
    var t := rest[..e + 1];
    assert t[bb..] == rest[bb..e + 1];
    forall k | bb < k < |t| ensures Depth(t[bb..k]) > 0 {
      assert t[bb..k] == rest[bb..k];
    }
    assert ClosesAtEnd(t, bb);
    assert t[..bb] == rest[..bb];
    NoCharBefore(rest, ';', sc, bb);
  }

  /** The first occurrence of a character found by `Find`. */
  lemma FirstCharFacts(s: string, c: char, at: nat)
    requires Find(s, [c]) == Some(at)
    ensures at < |s| && s[at] == c && c !in s[..at]
  {
    assert s[at..at + 1] == [c];
    forall j | 0 <= j < at ensures s[j] != c {
      assert !OccursAt(s, [c], j);
      assert s[j..j + 1] == [s[j]];
    }
  }

  /** No occurrence of `c` before `limit` when the first one (if any) is at
      or after it. */
  lemma NoCharBefore(s: string, c: char, found: Option<nat>, limit: nat)
    requires found == Find(s, [c]) && limit <= |s|
    requires found.Some? ==> found.value >= limit
    ensures c !in s[..limit]
  {
    forall j | 0 <= j < limit ensures s[j] != c {
      assert !OccursAt(s, [c], j);
      assert s[j..j + 1] == [s[j]];
    }
  }

  // ---------------------------------------------------------------------
  // Output framing

  /** The records, already serialised, written as one JSON array (section 5
      of RFC 8259): `[`, the records separated by commas, `]` and a
      newline. */
  method WriteRecords(records: seq<string>) returns (out: string)
    ensures out == "[" + Join(records, ",") + "]\n"
  {
    out := "[";
    var first := true;
    for i := 0 to |records|
      invariant first <==> i == 0
      invariant out == "[" + Join(records[..i], ",")
    {
      if !first {
        out := out + ",";
      }
      if i > 0 {
        JoinSnoc(records[..i], records[i], ",");
      }
      assert records[..i + 1] == records[..i] + [records[i]];
      out := out + records[i];
      first := false;
    }
    assert records[..|records|] == records;
    out := out + "]\n";
  }

  /** Where a reader of the array is: how deep in brackets, inside a
      string or not, and just after a backslash inside a string. */
  datatype JsonScan = JsonScan(depth: int, inString: bool, escaped: bool)

  const Outside := JsonScan(0, false, false)

  /** One character of JSON text (section 7 of RFC 8259 for strings). */
  function ScanJson(c: char, st: JsonScan): JsonScan {
    if st.inString then
      if st.escaped then JsonScan(st.depth, true, false)
      else if c == '\\' then JsonScan(st.depth, true, true)
      else if c == '"' then JsonScan(st.depth, false, false)
      else st
    else if c == '"' then JsonScan(st.depth, true, false)
    else if c == '{' || c == '[' then JsonScan(st.depth + 1, false, false)
    else if c == '}' || c == ']' then JsonScan(st.depth - 1, false, false)
    else st
  }

  function ScanText(s: string, st: JsonScan): JsonScan
    decreases |s|
  {
    if s == [] then st else ScanText(s[1..], ScanJson(s[0], st))
  }

  /** No comma of `s` is read outside strings and brackets. */
  predicate NoTopComma(s: string, st: JsonScan)
    decreases |s|
  {
    s == [] || (!(s[0] == ',' && st == Outside) && NoTopComma(s[1..], ScanJson(s[0], st)))
  }

  /** A serialised record: one nonempty JSON value, with its commas inside
      its brackets or strings, that ends outside any string or bracket. */
  predicate Framed(r: string) {
    r != [] && NoTopComma(r, Outside) && ScanText(r, Outside) == Outside
  }

  /** The pieces of a text between the commas read outside strings and
      brackets, starting from `st`. */
  function TopPieces(s: string, st: JsonScan): (r: seq<string>)
    ensures |r| >= 1
    decreases |s|
  {
    if s == [] then [""]
    else if s[0] == ',' && st == Outside then [""] + TopPieces(s[1..], Outside)
    else
      var rest := TopPieces(s[1..], ScanJson(s[0], st));
      [[s[0]] + rest[0]] + rest[1..]
  }

  /** Commas inside brackets or inside a string leave a value framed; a
      comma outside both does not. */
  lemma FramedExamples()
    ensures Framed("[1,2]")
    ensures Framed("\"x,]\"")
    ensures !Framed("1,2")
  {
  }

  /** Reading the records back from the text between the brackets. */
  function ReadRecords(body: string): seq<string> {
    if body == [] then [] else TopPieces(body, Outside)
  }

  /** The framing can be undone: between the brackets, splitting at the
      commas outside strings and brackets gives the records back. */
  lemma RecordsFramingRoundTrip(records: seq<string>)
    requires forall k :: 0 <= k < |records| ==> Framed(records[k])
    ensures var out := "[" + Join(records, ",") + "]\n";
      out[0] == '[' && out[|out| - 2..] == "]\n" &&
      ReadRecords(out[1..|out| - 2]) == records
  {
    var body := Join(records, ",");
    var out := "[" + body + "]\n";
    assert out[1..|out| - 2] == body;
    if records != [] {
      assert body != [] by {
        if |records| > 1 { assert body == records[0] + "," + Join(records[1..], ","); }
      }
      PiecesOfJoin(records);
    }
  }

  lemma {:induction false} PiecesOfJoin(records: seq<string>)
    requires records != []
    requires forall k :: 0 <= k < |records| ==> Framed(records[k])
    ensures TopPieces(Join(records, ","), Outside) == records
    decreases |records|
  {
    var r := records[0];
    if |records| == 1 {
      PiecesAcross(r, "", Outside);
      assert r + "" == r;
    } else {
      var rest := Join(records[1..], ",");
      PiecesOfJoin(records[1..]);
      PiecesAcross(r, "," + rest, Outside);
      assert (r + "," + rest) == r + ("," + rest);
      assert ("," + rest)[1..] == rest;
      assert r + "" == r;
    }
  }

  /** Text without a top-level comma stays in the first piece. */
  lemma {:induction false} PiecesAcross(r: string, t: string, st: JsonScan)
    requires NoTopComma(r, st)
    ensures var p := TopPieces(t, ScanText(r, st));
      TopPieces(r + t, st) == [r + p[0]] + p[1..]
    decreases |r|
  {
    if r == [] {
      var p := TopPieces(t, st);
      assert r + t == t && r + p[0] == p[0];
      assert [p[0]] + p[1..] == p;
    } else {
      var next := ScanJson(r[0], st);
      assert (r + t)[0] == r[0] && (r + t)[1..] == r[1..] + t;
      assert !(r[0] == ',' && st == Outside) && NoTopComma(r[1..], next);
      PiecesAcross(r[1..], t, next);
      var p := TopPieces(t, ScanText(r[1..], next));
      assert ScanText(r, st) == ScanText(r[1..], next);
      var rest := TopPieces(r[1..] + t, next);
      assert rest == [r[1..] + p[0]] + p[1..];
      assert TopPieces(r + t, st) == [[r[0]] + rest[0]] + rest[1..];
      assert rest[1..] == p[1..];
      assert [r[0]] + (r[1..] + p[0]) == r + p[0];
    }
  }
}
