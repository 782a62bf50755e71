// Shared value types and string/sequence helpers used by every other module.
// Text is treated as ASCII: Python's Unicode-aware classes and Rust's
// Unicode whitespace are restricted to their ASCII members.

module Common {

  datatype Option<T> = None | Some(value: T)

  datatype Result<T, E> = Ok(value: T) | Err(error: E)

  // ---------------------------------------------------------------------
  // Character classes

  /** Python `str.isspace` / regex `\s` on ASCII: \t \n \v \f \r, the four
      separator controls 0x1C-0x1F, and space. */
  predicate PyIsSpace(c: char) {
    ('\t' <= c <= '\r') || (28 <= c as int <= 31) || c == ' '
  }

  /** Rust `char::is_whitespace` / regex-crate `\s` on ASCII: \t \n \v \f \r and space. */
  predicate RustIsSpace(c: char) {
    ('\t' <= c <= '\r') || c == ' '
  }

  predicate IsDigit(c: char) { '0' <= c <= '9' }

  predicate IsAsciiLetter(c: char) { ('a' <= c <= 'z') || ('A' <= c <= 'Z') }

  /** The word characters of `\w` and of `\b` on ASCII text. */
  predicate IsWordChar(c: char) { IsAsciiLetter(c) || IsDigit(c) || c == '_' }

  /** The end of the run of word characters that starts at `i`. */
  function WordEnd(s: string, i: nat): (j: nat)
    requires i <= |s|
    ensures i <= j <= |s|
    ensures forall k :: i <= k < j ==> IsWordChar(s[k])
    ensures j == |s| || !IsWordChar(s[j])
    decreases |s| - i
  {
    if i == |s| || !IsWordChar(s[i]) then i else WordEnd(s, i + 1)
  }

  lemma {:induction false} WordEndAt(s: string, i: nat, j: nat)
    requires i <= j <= |s|
    requires forall k :: i <= k < j ==> IsWordChar(s[k])
    requires j == |s| || !IsWordChar(s[j])
    ensures WordEnd(s, i) == j
    decreases j - i
  {
    if i < j {
      WordEndAt(s, i + 1, j);
    }
  }

  /** The end of the run of Python whitespace that starts at `i`. */
  function SpaceEnd(s: string, i: nat): (j: nat)
    requires i <= |s|
    ensures i <= j <= |s|
    ensures forall k :: i <= k < j ==> PyIsSpace(s[k])
    ensures j == |s| || !PyIsSpace(s[j])
    decreases |s| - i
  {
    if i == |s| || !PyIsSpace(s[i]) then i else SpaceEnd(s, i + 1)
  }

  function LowerChar(c: char): char {
    if 'A' <= c <= 'Z' then (c as int + 32) as char else c
  }

  function UpperChar(c: char): char {
    if 'a' <= c <= 'z' then (c as int - 32) as char else c
  }

  /** `str.lower()` on ASCII text. */
  function Lower(s: string): (r: string)
    ensures |r| == |s|
    ensures forall i :: 0 <= i < |s| ==> r[i] == LowerChar(s[i])
  {
    if s == [] then [] else [LowerChar(s[0])] + Lower(s[1..])
  }

  // ---------------------------------------------------------------------
  // Prefixes, suffixes, substrings

  predicate StartsWith<T(==)>(s: seq<T>, p: seq<T>) {
    |p| <= |s| && s[..|p|] == p
  }

  predicate EndsWith<T(==)>(s: seq<T>, p: seq<T>) {
    |p| <= |s| && s[|s| - |p|..] == p
  }

  /** `sub` occurs in `s` at index `i`. */
  predicate OccursAt<T(==)>(s: seq<T>, sub: seq<T>, i: int) {
    0 <= i && i + |sub| <= |s| && s[i..i + |sub|] == sub
  }

  /** Finding a one-character string: the first position at or after
      `from` that holds it. */
  lemma FindCharAt(s: string, c: char, from: nat, at: nat)
    requires from <= at < |s| && s[at] == c
    requires forall j :: from <= j < at ==> s[j] != c
    ensures FindFrom(s, [c], from) == Some(at)
  {
    assert OccursAt(s, [c], at) by { assert s[at..at + 1] == [c]; }
    forall j | from <= j < at ensures !OccursAt(s, [c], j) {
      assert s[j..j + 1][0] == s[j];
    }
  }

  /** Python `sub in s` / Rust `s.contains(sub)`. */
  predicate Contains<T(==)>(s: seq<T>, sub: seq<T>) {
    exists i :: 0 <= i <= |s| && OccursAt(s, sub, i)
  }

  /** Index of the first occurrence of `sub` in `s` at or after `from`
      (Python `str.find`, Rust `str::find`). */
  function FindFrom<T(==)>(s: seq<T>, sub: seq<T>, from: nat): (r: Option<nat>)
    decreases |s| - from
    ensures r.Some? ==> from <= r.value && OccursAt(s, sub, r.value)
    ensures r.Some? ==> forall j :: from <= j < r.value ==> !OccursAt(s, sub, j)
    ensures r.None? ==> forall j :: from <= j ==> !OccursAt(s, sub, j)
  {
    if from + |sub| > |s| then None
    else if s[from..from + |sub|] == sub then Some(from)
    else FindFrom(s, sub, from + 1)
  }

  function Find<T(==)>(s: seq<T>, sub: seq<T>): (r: Option<nat>)
    ensures r.Some? <==> Contains(s, sub)
    ensures r.Some? ==> OccursAt(s, sub, r.value)
    ensures r.Some? ==> forall j :: 0 <= j < r.value ==> !OccursAt(s, sub, j)
  {
    FindFrom(s, sub, 0)
  }

  /** Number of occurrences of a character. */
  function CountChar(s: string, c: char): (n: nat)
    ensures n <= |s|
  {
    if s == [] then 0 else (if s[0] == c then 1 else 0) + CountChar(s[1..], c)
  }

  /** A character that occurs in a text has a first occurrence. */
  lemma {:induction false} FirstOccurrence(s: string, c: char) returns (i: nat)
    requires c in s
    ensures i < |s| && s[i] == c && c !in s[..i]
  {
    if s[0] == c {
      i := 0;
    } else {
      assert c in s[1..] by {
        var j :| 0 <= j < |s| && s[j] == c;
        assert s[1..][j - 1] == c;
      }
      var k := FirstOccurrence(s[1..], c);
      i := k + 1;
      assert s[..i] == [s[0]] + s[1..][..k];
    }
  }

  lemma {:induction false} CountCharIn(s: string, c: char)
    requires c in s
    ensures CountChar(s, c) >= 1
  {
    if s[0] != c {
      assert c in s[1..] by {
        var i :| 0 <= i < |s| && s[i] == c;
        assert s[1..][i - 1] == c;
      }
      CountCharIn(s[1..], c);
    }
  }

  lemma {:induction false} CountCharAppend(a: string, b: string, c: char)
    ensures CountChar(a + b, c) == CountChar(a, c) + CountChar(b, c)
  {
    if a == [] {
      assert a + b == b;
    } else {
      assert (a + b)[1..] == a[1..] + b;
      CountCharAppend(a[1..], b, c);
    }
  }

  // ---------------------------------------------------------------------
  // Splitting and joining

  /** Python `s.split(sep)` for a one-character separator: the pieces between
      separators, always at least one. */
  function Split(s: string, sep: char): (parts: seq<string>)
    ensures |parts| >= 1
    ensures |parts| == CountChar(s, sep) + 1
    ensures forall k :: 0 <= k < |parts| ==> sep !in parts[k]
  {
    if s == [] then [""]
    else
      var rest := Split(s[1..], sep);
      if s[0] == sep then [""] + rest
      else [[s[0]] + rest[0]] + rest[1..]
  }

  /** Where `Split` produces empty parts: the first part is empty when the
      text is empty or starts with the separator, and a later part is empty
      when a separator is followed by another one or ends the text. */
  lemma {:induction false} SplitEmptyParts(t: string, sep: char)
    ensures Split(t, sep)[0] == "" <==> t == [] || t[0] == sep
    ensures "" in Split(t, sep)[1..] <==>
      exists i :: 0 <= i < |t| && t[i] == sep && (i + 1 == |t| || t[i + 1] == sep)
  {
    if t != [] {
      var rest := Split(t[1..], sep);
      SplitEmptyParts(t[1..], sep);
      if t[0] == sep {
        assert Split(t, sep)[1..] == rest;
        assert rest == [rest[0]] + rest[1..];
        if exists i :: 0 <= i < |t| && t[i] == sep && (i + 1 == |t| || t[i + 1] == sep) {
          var i :| 0 <= i < |t| && t[i] == sep && (i + 1 == |t| || t[i + 1] == sep);
          if i > 0 {
            assert t[1..][i - 1] == sep;
          }
        }
      } else {
        assert Split(t, sep)[1..] == rest[1..];
        if exists i :: 0 <= i < |t| && t[i] == sep && (i + 1 == |t| || t[i + 1] == sep) {
          var i :| 0 <= i < |t| && t[i] == sep && (i + 1 == |t| || t[i + 1] == sep);
          assert i > 0 && t[1..][i - 1] == sep;
        }
      }
    }
  }

  /** `sep.join(parts)` in Python, `parts.join(sep)` in Rust. */
  function Join(parts: seq<string>, sep: string): string {
    if parts == [] then ""
    else if |parts| == 1 then parts[0]
    else parts[0] + sep + Join(parts[1..], sep)
  }

  /** Joining and splitting on a one-character separator are inverse when no
      part contains the separator. */
  lemma {:induction false} SplitJoin(parts: seq<string>, sep: char)
    requires |parts| >= 1
    requires forall k :: 0 <= k < |parts| ==> sep !in parts[k]
    ensures Split(Join(parts, [sep]), sep) == parts
  {
    if |parts| == 1 {
      SplitNoSep(parts[0], sep);
    } else {
      SplitJoin(parts[1..], sep);
      SplitConcat(parts[0], Join(parts[1..], [sep]), sep);
    }
  }

  lemma {:induction false} SplitNoSep(s: string, sep: char)
    requires sep !in s
    ensures Split(s, sep) == [s]
  {
    if s != [] {
      assert forall i :: 0 <= i < |s[1..]| ==> s[1..][i] == s[i + 1];
      SplitNoSep(s[1..], sep);
      assert s[0] != sep;
      assert [s[0]] + s[1..] == s;
    }
  }

  lemma {:induction false} SplitConcat(a: string, b: string, sep: char)
    requires sep !in a
    ensures Split(a + [sep] + b, sep) == [a] + Split(b, sep)
  {
    if a == [] {
      assert a + [sep] + b == [sep] + b;
      assert ([sep] + b)[1..] == b;
    } else {
      assert (a + [sep] + b)[1..] == a[1..] + [sep] + b;
      SplitConcat(a[1..], b, sep);
      assert [a[0]] + a[1..] == a;
    }
  }

  lemma AppendAssoc<T>(x: seq<T>, y: seq<T>, z: seq<T>)
    ensures (x + y) + z == x + (y + z)
  {
  }

  /** Joining two nonempty lists of parts puts one separator between the
      two joins. */
  lemma {:induction false} JoinConcat(a: seq<string>, b: seq<string>, sep: string)
    requires a != [] && b != []
    ensures Join(a + b, sep) == Join(a, sep) + sep + Join(b, sep)
    decreases |a|
  {
    if |a| == 1 {
      assert (a + b)[1..] == b;
    } else {
      assert (a + b)[1..] == a[1..] + b;
      JoinConcat(a[1..], b, sep);
      assert Join(a + b, sep) == a[0] + sep + (Join(a[1..], sep) + sep + Join(b, sep));
    }
  }

  /** Splitting at a separator followed by a separator-free tail: the tail
      is the last part. */
  lemma {:induction false} SplitSnoc(s: string, t: string, sep: char)
    requires sep !in t
    ensures Split(s + [sep] + t, sep) == Split(s, sep) + [t]
    decreases |s|
  {
    if s == [] {
      SplitConcat(s, t, sep);
      SplitNoSep(t, sep);
    } else {
      assert (s + [sep] + t)[1..] == s[1..] + [sep] + t;
      SplitSnoc(s[1..], t, sep);
    }
  }

  lemma {:induction false} JoinLength(parts: seq<string>, sep: string)
    requires |parts| >= 1
    ensures |Join(parts, sep)| == SumLengths(parts) + (|parts| - 1) * |sep|
  {
    if |parts| > 1 {
      JoinLength(parts[1..], sep);
    }
  }

  function SumLengths(parts: seq<string>): nat {
    if parts == [] then 0 else |parts[0]| + SumLengths(parts[1..])
  }

  /** Concatenation of a sequence of sequences. */
  function Flatten<T>(xss: seq<seq<T>>): (r: seq<T>)
    decreases |xss|
  {
    if xss == [] then [] else xss[0] + Flatten(xss[1..])
  }

  lemma {:induction false} FlattenAppend<T>(xss: seq<seq<T>>, ys: seq<T>)
    ensures Flatten(xss + [ys]) == Flatten(xss) + ys
  {
    if xss == [] {
      assert xss + [ys] == [ys];
    } else {
      assert (xss + [ys])[1..] == xss[1..] + [ys];
      FlattenAppend(xss[1..], ys);
    }
  }

  /** The concatenation of `f(x)` over the elements of `xs`, in order. */
  function ConcatMap<T, U>(xs: seq<T>, f: T -> seq<U>): seq<U>
    decreases |xs|
  {
    if xs == [] then [] else ConcatMap(xs[..|xs| - 1], f) + f(xs[|xs| - 1])
  }

  lemma {:induction false} ConcatMapAppend<T, U>(a: seq<T>, b: seq<T>, f: T -> seq<U>)
    ensures ConcatMap(a + b, f) == ConcatMap(a, f) + ConcatMap(b, f)
    decreases |b|
  {
    if b == [] {
      assert a + b == a;
    } else {
      var init := b[..|b| - 1];
      ConcatMapAppend(a, init, f);
      assert (a + b)[..|a + b| - 1] == a + init;
    }
  }

  lemma ConcatMapStep<T, U>(xs: seq<T>, f: T -> seq<U>, i: nat)
    requires i < |xs|
    ensures ConcatMap(xs[..i + 1], f) == ConcatMap(xs[..i], f) + f(xs[i])
  {
    assert xs[..i + 1][..i] == xs[..i];
  }

  /** The union of `f(x)` over the elements of `xs`, built left to right. */
  function UnionOf<T, U>(xs: seq<T>, f: T -> set<U>): set<U>
    decreases |xs|
  {
    if xs == [] then {} else UnionOf(xs[..|xs| - 1], f) + f(xs[|xs| - 1])
  }

  lemma UnionOfStep<T, U>(xs: seq<T>, f: T -> set<U>, j: nat)
    requires j < |xs|
    ensures UnionOf(xs[..j + 1], f) == UnionOf(xs[..j], f) + f(xs[j])
  {
    assert xs[..j + 1][..j] == xs[..j];
  }

  lemma {:induction false} UnionOfMembers<T, U>(xs: seq<T>, f: T -> set<U>)
    ensures forall u :: u in UnionOf(xs, f) <==> exists m :: 0 <= m < |xs| && u in f(xs[m])
    decreases |xs|
  {
    if xs != [] {
      var init, last := xs[..|xs| - 1], xs[|xs| - 1];
      UnionOfMembers(init, f);
      forall u ensures u in UnionOf(xs, f) <==> exists m :: 0 <= m < |xs| && u in f(xs[m]) {
        if u in UnionOf(init, f) {
          var m :| 0 <= m < |init| && u in f(init[m]);
          assert init[m] == xs[m];
        } else if u !in f(last) {
          forall m | 0 <= m < |xs| ensures u !in f(xs[m]) {
            if m < |init| {
              assert init[m] == xs[m];
            }
          }
        }
      }
    }
  }

  // ---------------------------------------------------------------------
  // Stripping whitespace

  /** Python `str.lstrip()` on ASCII text. */
  function PyLStrip(s: string): (r: string)
    ensures |r| <= |s| && r == s[|s| - |r|..]
    ensures r == [] || !PyIsSpace(r[0])
  {
    if s != [] && PyIsSpace(s[0]) then
      var r := PyLStrip(s[1..]);
      assert s[1..][|s| - 1 - |r|..] == s[|s| - |r|..];
      r
    else s
  }

  /** Python `str.rstrip()` on ASCII text. */
  function PyRStrip(s: string): (r: string)
    ensures |r| <= |s| && r == s[..|r|]
    ensures r == [] || !PyIsSpace(r[|r| - 1])
  {
    if s != [] && PyIsSpace(s[|s| - 1]) then PyRStrip(s[..|s| - 1]) else s
  }

  /** Python `str.strip()` on ASCII text. */
  function PyStrip(s: string): (r: string)
    ensures r == [] || (!PyIsSpace(r[0]) && !PyIsSpace(r[|r| - 1]))
  {
    PyRStrip(PyLStrip(s))
  }

  /** Python treats a string as blank when `not s.strip()`. */
  predicate IsBlank(s: string) {
    forall i :: 0 <= i < |s| ==> PyIsSpace(s[i])
  }

  lemma {:induction false} PyStripEmptyIffBlank(s: string)
    ensures PyStrip(s) == [] <==> IsBlank(s)
  {
    PyLStripBlank(s);
    var l := PyLStrip(s);
    if l != [] {
      assert !PyIsSpace(l[0]);
      PyRStripKeepsFirst(l);
    }
  }

  lemma {:induction false} PyLStripBlank(s: string)
    ensures PyLStrip(s) == [] <==> IsBlank(s)
  {
    if s == [] {
    } else if !PyIsSpace(s[0]) {
      assert !IsBlank(s);
    } else {
      PyLStripBlank(s[1..]);
      BlankAfterSpace(s);
    }
  }

  lemma BlankAfterSpace(s: string)
    requires s != [] && PyIsSpace(s[0])
    ensures IsBlank(s) <==> IsBlank(s[1..])
  {
    var t := s[1..];
    if IsBlank(t) {
      forall i | 0 <= i < |s| ensures PyIsSpace(s[i]) {
        if i > 0 { assert s[i] == t[i - 1]; }
      }
    } else {
      var i :| 0 <= i < |t| && !PyIsSpace(t[i]);
      assert s[i + 1] == t[i];
    }
  }


  lemma {:induction false} PyRStripKeepsFirst(s: string)
    requires s != [] && !PyIsSpace(s[0])
    ensures PyRStrip(s) != []
  {
    if PyIsSpace(s[|s| - 1]) {
      PyRStripKeepsFirst(s[..|s| - 1]);
    }
  }

  /** Rust `str::trim` on ASCII text. */
  function RustTrim(s: string): (r: string)
    ensures r == [] || (!RustIsSpace(r[0]) && !RustIsSpace(r[|r| - 1]))
  {
    RustTrimEnd(RustTrimStart(s))
  }

  function RustTrimStart(s: string): (r: string)
    ensures |r| <= |s| && r == s[|s| - |r|..]
    ensures r == [] || !RustIsSpace(r[0])
  {
    if s != [] && RustIsSpace(s[0]) then
      var r := RustTrimStart(s[1..]);
      assert s[1..][|s| - 1 - |r|..] == s[|s| - |r|..];
      r
    else s
  }

  function RustTrimEnd(s: string): (r: string)
    ensures |r| <= |s| && r == s[..|r|]
    ensures r == [] || !RustIsSpace(r[|r| - 1])
  {
    if s != [] && RustIsSpace(s[|s| - 1]) then RustTrimEnd(s[..|s| - 1]) else s
  }

  // ---------------------------------------------------------------------
  // Numbers as text

  function DigitChar(d: nat): char
    requires d < 10
  {
    ['0', '1', '2', '3', '4', '5', '6', '7', '8', '9'][d]
  }

  /** Decimal rendering of a natural number (`str(n)`, `format!("{}", n)`). */
  function NatToString(n: nat): (r: string)
    ensures |r| >= 1
    ensures forall i :: 0 <= i < |r| ==> IsDigit(r[i])
  {
    if n < 10 then [DigitChar(n)] else NatToString(n / 10) + [DigitChar(n % 10)]
  }

  function IntToString(n: int): string {
    if n < 0 then "-" + NatToString(-n) else NatToString(n)
  }

  /** Value of a string of decimal digits (`int(s)` on such a string). */
  function DigitsValue(s: string): nat
    requires forall i :: 0 <= i < |s| ==> IsDigit(s[i])
  {
    if s == [] then 0
    else
      assert IsDigit(s[|s| - 1]);
      DigitsValue(s[..|s| - 1]) * 10 + (s[|s| - 1] as int - '0' as int) as nat
  }

  lemma {:induction false} DigitsValueOfNatToString(n: nat)
    ensures DigitsValue(NatToString(n)) == n
  {
    if n >= 10 {
      var r := NatToString(n);
      assert r[..|r| - 1] == NatToString(n / 10);
      DigitsValueOfNatToString(n / 10);
    }
  }

  // ---------------------------------------------------------------------
  // Sequence helpers

  /** Python `xs[:k]`: a negative `k` counts from the end. */
  function PyPrefix<T>(xs: seq<T>, k: int): (r: seq<T>)
    ensures k >= 0 ==> |r| == if k < |xs| then k else |xs|
    ensures |r| <= |xs|
    ensures r == xs[..|r|]
  {
    if k >= 0 then (if k < |xs| then xs[..k] else xs)
    else if |xs| + k > 0 then xs[..|xs| + k] else []
  }

  function Min(a: int, b: int): int { if a < b then a else b }
  function Max(a: int, b: int): int { if a < b then b else a }

  /** Elements kept in order, each at its first occurrence
      (a Rust `HashSet::insert` filter, a Python `if x not in out` append). */
  function Dedup<T(==)>(xs: seq<T>): (r: seq<T>)
    decreases |xs|
  {
    if xs == [] then [] else DedupInto([xs[0]], xs[1..])
  }

  /** Dedup continued from an already de-duplicated prefix `acc`. */
  function DedupInto<T(==)>(acc: seq<T>, xs: seq<T>): seq<T>
    decreases |xs|
  {
    if xs == [] then acc
    else if xs[0] in acc then DedupInto(acc, xs[1..])
    else DedupInto(acc + [xs[0]], xs[1..])
  }

  predicate NoDuplicates<T(==)>(xs: seq<T>) {
    forall i, j :: 0 <= i < j < |xs| ==> xs[i] != xs[j]
  }

  lemma {:induction false} DedupIntoProps<T>(acc: seq<T>, xs: seq<T>)
    requires NoDuplicates(acc)
    ensures NoDuplicates(DedupInto(acc, xs))
    ensures (set x | x in DedupInto(acc, xs)) == (set x | x in acc) + (set x | x in xs)
    ensures StartsWith(DedupInto(acc, xs), acc)
    decreases |xs|
  {
    if xs != [] {
      if xs[0] in acc {
        DedupIntoProps(acc, xs[1..]);
        assert xs == [xs[0]] + xs[1..];
      } else {
        var acc' := acc + [xs[0]];
        DedupIntoProps(acc', xs[1..]);
        assert xs == [xs[0]] + xs[1..];
        assert acc'[..|acc|] == acc;
      }
    }
  }

  /** Dedup keeps exactly the elements of its input, each once. */
  lemma DedupProps<T>(xs: seq<T>)
    ensures NoDuplicates(Dedup(xs))
    ensures (set x | x in Dedup(xs)) == (set x | x in xs)
  {
    if xs != [] {
      DedupIntoProps([xs[0]], xs[1..]);
      assert xs == [xs[0]] + xs[1..];
    }
  }

  /** Appending to a de-duplicated list: the incremental step of the loops
      that build Dedup with a membership test. */
  lemma {:induction false} DedupIntoAppend<T>(acc: seq<T>, xs: seq<T>, x: T)
    ensures DedupInto(acc, xs + [x])
         == (var d := DedupInto(acc, xs); if x in d then d else d + [x])
    decreases |xs|
  {
    if xs == [] {
      assert xs + [x] == [x];
    } else {
      assert (xs + [x])[1..] == xs[1..] + [x];
      if xs[0] in acc {
        DedupIntoAppend(acc, xs[1..], x);
      } else {
        DedupIntoAppend(acc + [xs[0]], xs[1..], x);
      }
    }
  }

  lemma DedupAppend<T>(xs: seq<T>, x: T)
    ensures Dedup(xs + [x]) == (var d := Dedup(xs); if x in d then d else d + [x])
  {
    if xs == [] {
      assert xs + [x] == [x];
    } else {
      assert (xs + [x])[1..] == xs[1..] + [x];
      DedupIntoAppend([xs[0]], xs[1..], x);
    }
  }

  /** Elements of `xs` that satisfy `p`, in order. */
  function Filter<T>(xs: seq<T>, p: T -> bool): (r: seq<T>)
    ensures |r| <= |xs|
    ensures forall i :: 0 <= i < |r| ==> p(r[i])
    ensures forall i :: 0 <= i < |r| ==> r[i] in xs
    ensures forall i :: 0 <= i < |xs| && p(xs[i]) ==> xs[i] in r
  {
    if xs == [] then []
    else (if p(xs[0]) then [xs[0]] else []) + Filter(xs[1..], p)
  }

  lemma {:induction false} FilterAppend<T>(xs: seq<T>, ys: seq<T>, p: T -> bool)
    ensures Filter(xs + ys, p) == Filter(xs, p) + Filter(ys, p)
  {
    if xs == [] {
      assert xs + ys == ys;
    } else {
      assert (xs + ys)[1..] == xs[1..] + ys;
      FilterAppend(xs[1..], ys, p);
    }
  }

  lemma FilterSnoc<T>(xs: seq<T>, x: T, p: T -> bool)
    ensures Filter(xs + [x], p) == Filter(xs, p) + (if p(x) then [x] else [])
  {
    FilterAppend(xs, [x], p);
  }

  lemma {:induction false} FilterAll<T>(xs: seq<T>, p: T -> bool)
    requires forall j :: 0 <= j < |xs| ==> p(xs[j])
    ensures Filter(xs, p) == xs
  {
    if xs != [] {
      FilterAll(xs[1..], p);
    }
  }

  /** Every element satisfies `p`. */
  predicate All<T>(xs: seq<T>, p: T -> bool) {
    forall j :: 0 <= j < |xs| ==> p(xs[j])
  }

  lemma AllDropLast<T>(xs: seq<T>, p: T -> bool)
    requires xs != []
    ensures All(xs, p) <==> All(xs[..|xs| - 1], p) && p(xs[|xs| - 1])
  {
    assert forall j :: 0 <= j < |xs| - 1 ==> xs[..|xs| - 1][j] == xs[j];
  }

  lemma FilterDropLast<T>(xs: seq<T>, p: T -> bool)
    requires xs != []
    ensures Filter(xs, p) == Filter(xs[..|xs| - 1], p) + (if p(xs[|xs| - 1]) then [xs[|xs| - 1]] else [])
  {
    FilterPrefixStep(xs, |xs| - 1, p);
    assert xs[..|xs|] == xs;
  }

  /** One more element of a prefix: the filter of the longer prefix. */
  lemma FilterPrefixStep<T>(xs: seq<T>, i: nat, p: T -> bool)
    requires i < |xs|
    ensures Filter(xs[..i + 1], p) == Filter(xs[..i], p) + (if p(xs[i]) then [xs[i]] else [])
  {
    assert xs[..i + 1] == xs[..i] + [xs[i]];
    FilterSnoc(xs[..i], xs[i], p);
  }

  function Count<T>(xs: seq<T>, p: T -> bool): (n: nat)
    ensures n == |Filter(xs, p)|
  {
    if xs == [] then 0 else (if p(xs[0]) then 1 else 0) + Count(xs[1..], p)
  }

  lemma CountSnoc<T>(xs: seq<T>, x: T, p: T -> bool)
    ensures Count(xs + [x], p) == Count(xs, p) + (if p(x) then 1 else 0)
  {
    FilterSnoc(xs, x, p);
  }

  lemma {:induction false} CountDropLast<T>(xs: seq<T>, p: T -> bool)
    requires xs != []
    ensures Count(xs, p) == Count(xs[..|xs| - 1], p) + (if p(xs[|xs| - 1]) then 1 else 0)
    decreases |xs|
  {
    if |xs| == 1 {
      assert xs[1..] == [] && xs[..0] == [];
    } else {
      CountDropLast(xs[1..], p);
      assert xs[..|xs| - 1][1..] == xs[1..][..|xs| - 2];
      assert xs[..|xs| - 1][0] == xs[0];
    }
  }

  // ---------------------------------------------------------------------
  // Occurrences, parts and concatenations

  /** Every part of a join occurs in it. */
  lemma {:induction false} JoinPartOccurs(parts: seq<string>, sep: string, k: nat)
    requires k < |parts|
    ensures Contains(Join(parts, sep), parts[k])
  {
    if |parts| == 1 {
      assert OccursAt(Join(parts, sep), parts[k], 0);
    } else {
      var head, rest := parts[0] + sep, Join(parts[1..], sep);
      assert Join(parts, sep) == head + rest;
      if k == 0 {
        assert (head + rest)[..|parts[0]|] == parts[0];
        assert OccursAt(Join(parts, sep), parts[k], 0);
      } else {
        JoinPartOccurs(parts[1..], sep, k - 1);
        var i :| 0 <= i <= |rest| && OccursAt(rest, parts[k], i);
        OccursAfter(head, rest, parts[k], i);
      }
    }
  }

  /** An occurrence in a suffix is an occurrence in the whole. */
  lemma OccursAfter<T>(a: seq<T>, b: seq<T>, sub: seq<T>, i: int)
    requires OccursAt(b, sub, i)
    ensures OccursAt(a + b, sub, |a| + i)
  {
    assert (a + b)[|a| + i..|a| + i + |sub|] == b[i..i + |sub|];
  }

  /** An occurrence inside an occurrence is an occurrence in the whole. */
  lemma OccursWithin<T>(s: seq<T>, mid: seq<T>, sub: seq<T>, i: int, j: int)
    requires OccursAt(s, mid, i) && OccursAt(mid, sub, j)
    ensures OccursAt(s, sub, i + j)
  {
    forall k | 0 <= k < |sub| ensures s[i + j + k] == sub[k] {
      assert sub[k] == mid[j + k] == s[i..i + |mid|][j + k];
    }
    assert s[i + j..i + j + |sub|] == sub;
  }

  /** The first part of a split is a prefix of the text. */
  lemma {:induction false} SplitHeadPrefix(s: string, sep: char)
    ensures StartsWith(s, Split(s, sep)[0])
  {
    if s != [] && s[0] != sep {
      SplitHeadPrefix(s[1..], sep);
      var h := Split(s[1..], sep)[0];
      assert Split(s, sep)[0] == [s[0]] + h;
      assert s[..|h| + 1] == [s[0]] + s[1..][..|h|];
    }
  }

  /** Every part of a split occurs in the text. */
  lemma {:induction false} SplitPartOccurs(s: string, sep: char, k: nat)
    requires k < |Split(s, sep)|
    ensures exists i :: OccursAt(s, Split(s, sep)[k], i)
  {
    if k == 0 {
      SplitHeadPrefix(s, sep);
      assert OccursAt(s, Split(s, sep)[0], 0);
    } else {
      var rest := Split(s[1..], sep);
      var k' := if s[0] == sep then k - 1 else k;
      assert Split(s, sep)[k] == rest[k'];
      SplitPartOccurs(s[1..], sep, k');
      var i :| OccursAt(s[1..], rest[k'], i);
      assert s[i + 1..i + 1 + |rest[k']|] == s[1..][i..i + |rest[k']|];
      assert OccursAt(s, rest[k'], i + 1);
    }
  }

  /** A split whose text starts with a separator-free `p` has a first part
      starting with `p`. */
  lemma {:induction false} SplitHeadStarts(p: string, rest: string, sep: char)
    requires sep !in p
    ensures StartsWith(Split(p + rest, sep)[0], p)
  {
    if p != [] {
      assert (p + rest)[1..] == p[1..] + rest;
      SplitHeadStarts(p[1..], rest, sep);
      assert p == [p[0]] + p[1..];
    }
  }

  /** Python `rstrip` keeps every character up to the last non-space one. */
  lemma {:induction false} PyRStripKeeps(s: string, i: nat)
    requires i < |s| && !PyIsSpace(s[i])
    ensures i < |PyRStrip(s)|
  {
    if PyIsSpace(s[|s| - 1]) {
      PyRStripKeeps(s[..|s| - 1], i);
    }
  }

  /** `Flatten` around its `k`-th element. */
  lemma {:induction false} FlattenAt<T>(xss: seq<seq<T>>, k: nat)
    requires k < |xss|
    ensures Flatten(xss) == Flatten(xss[..k]) + xss[k] + Flatten(xss[k + 1..])
  {
    if k > 0 {
      FlattenAt(xss[1..], k - 1);
      assert xss[1..][..k - 1] == xss[1..k];
      assert xss[1..][k - 1] == xss[k];
      assert xss[1..][k..] == xss[k + 1..];
      assert xss[..k] == [xss[0]] + xss[1..k];
      assert Flatten(xss[..k]) == xss[0] + Flatten(xss[1..k]) by {
        assert xss[..k][1..] == xss[1..k];
      }
    }
  }

  /** An element of `ConcatMap(xs, f)` comes from `f` of one of the `xs`. */
  lemma {:induction false} ConcatMapMembers<T, U>(xs: seq<T>, f: T -> seq<U>)
    ensures forall u :: u in ConcatMap(xs, f) <==> exists m :: 0 <= m < |xs| && u in f(xs[m])
    decreases |xs|
  {
    if xs != [] {
      var init, last := xs[..|xs| - 1], xs[|xs| - 1];
      ConcatMapMembers(init, f);
      forall u ensures u in ConcatMap(xs, f) <==> exists m :: 0 <= m < |xs| && u in f(xs[m]) {
        if u in ConcatMap(init, f) {
          var m :| 0 <= m < |init| && u in f(init[m]);
          assert init[m] == xs[m];
        } else if u !in f(last) {
          forall m | 0 <= m < |xs| ensures u !in f(xs[m]) {
            if m < |init| {
              assert init[m] == xs[m];
            }
          }
        }
      }
    }
  }

  /** An element of a flattened sequence of sequences occurs in it, after
      the elements before it. */
  lemma FlattenMember<T>(h: seq<T>, xss: seq<seq<T>>, t: seq<T>, k: nat)
    requires k < |xss|
    ensures OccursAt(h + Flatten(xss) + t, xss[k], |h| + |Flatten(xss[..k])|)
  {
    FlattenAt(xss, k);
    var pre := h + Flatten(xss[..k]);
    assert h + Flatten(xss) + t == pre + xss[k] + (Flatten(xss[k + 1..]) + t);
  }

  /** A flattened non-empty sequence ends with its last element. */
  lemma FlattenEndsWithLast<T>(xss: seq<seq<T>>)
    requires xss != []
    ensures EndsWith(Flatten(xss), xss[|xss| - 1])
  {
    var n := |xss| - 1;
    var init, last := xss[..n], xss[n];
    assert xss == init + [last];
    FlattenAppend(init, last);
    ConcatEnds(Flatten(init), [], last);
    assert Flatten(init) + [] + last == Flatten(init) + last;
  }

  lemma EndsWithTrans<T>(s: seq<T>, mid: seq<T>, p: seq<T>)
    requires EndsWith(s, mid) && EndsWith(mid, p)
    ensures EndsWith(s, p)
  {
    assert s[|s| - |p|..] == s[|s| - |mid|..][|mid| - |p|..];
  }

  /** Python `strip` of a text that starts and ends its prefix `p` with
      non-space characters keeps `p`. */
  lemma PyStripKeepsPrefix(p: string, h: string)
    requires p != [] && !PyIsSpace(p[0]) && !PyIsSpace(p[|p| - 1])
    ensures StartsWith(PyStrip(p + h), p)
  {
    var s := p + h;
    assert s[0] == p[0];
    assert PyLStrip(s) == s;
    assert s[|p| - 1] == p[|p| - 1];
    PyRStripKeeps(s, |p| - 1);
    var r := PyRStrip(s);
    assert r[..|p|] == s[..|p|] == p;
  }

  /** Splitting a text whose first two lines are `a` and `b`. */
  lemma SplitTwoLines(a: string, b: string, c: string, sep: char)
    requires sep !in a && sep !in b
    ensures Split(a + [sep] + b + [sep] + c, sep) == [a, b] + Split(c, sep)
  {
    assert a + [sep] + b + [sep] + c == a + [sep] + (b + [sep] + c);
    SplitConcat(a, b + [sep] + c, sep);
    SplitConcat(b, c, sep);
  }

  /** The two ends of a three-part concatenation. */
  lemma ConcatEnds<T>(h: seq<T>, b: seq<T>, m: seq<T>)
    ensures StartsWith(h + b + m, h) && EndsWith(h + b + m, m)
  {
    assert (h + b + m)[..|h|] == h;
    assert (h + b + m)[|h + b + m| - |m|..] == m;
  }

  lemma EndsWithExtend<T>(h: seq<T>, b: seq<T>, p: seq<T>)
    requires EndsWith(b, p)
    ensures EndsWith(h + b, p)
  {
    assert (h + b)[|h + b| - |p|..] == b[|b| - |p|..];
  }

  lemma FlattenStep<T>(xss: seq<seq<T>>, i: nat)
    requires i < |xss|
    ensures Flatten(xss[..i + 1]) == Flatten(xss[..i]) + xss[i]
  {
    assert xss[..i + 1] == xss[..i] + [xss[i]];
    FlattenAppend(xss[..i], xss[i]);
  }

  /** Joining one more part adds the separator and the part. */
  lemma {:induction false} JoinSnoc(parts: seq<string>, x: string, sep: string)
    requires parts != []
    ensures Join(parts + [x], sep) == Join(parts, sep) + sep + x
    decreases |parts|
  {
    if |parts| == 1 {
      assert (parts + [x])[1..] == [x];
    } else {
      assert (parts + [x])[1..] == parts[1..] + [x];
      JoinSnoc(parts[1..], x, sep);
    }
  }
}
