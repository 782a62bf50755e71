// The index builder: records read from the input files are validated,
// gathered (strictly, stopping at the first bad record or unreadable file,
// or leniently, skipping them), turned into points carrying one vector per
// embedded field, and upserted in batches. Reading and decoding files is
// outside the model: each file arrives as the objects it yielded and
// whether reading it failed after them. Embedding and the vector store are
// foreign services: a point carries, for each vector, the text that is
// embedded for it, and an upsert is recorded as the batch of points sent.

module IndexBuild {
  import opened Common

  // ---------------------------------------------------------------------
  // Records and their validation

  datatype VectorFields = VectorFields(signature: string, identifiers: string, codeBody: string, docComment: string)

  /** A line number as it arrives: a JSON number, a string, or any other
      JSON value (null, an array, an object), which `int()` refuses with a
      TypeError. */
  datatype LineValue = Number(n: int) | Text(s: string) | Other

  datatype RawPayload = RawPayload(
    repoId: string, path: string, kind: string, qualSymbol: string,
    startLine: LineValue, endLine: LineValue, text: string)

  datatype RawRecord = RawRecord(id: string, vectorFields: VectorFields, payload: RawPayload)

  datatype Payload = Payload(
    repoId: string, path: string, kind: string, qualSymbol: string,
    startLine: int, endLine: int, text: string)

  datatype Record = Record(id: string, vectorFields: VectorFields, payload: Payload)

  /** The fields whose validators can fail. */
  datatype Field = KindField | StartLineField | EndLineField

  const AllowedKinds: set<string> := {"struct", "impl", "fn"}

  /** Python's `int()` of a string: surrounding whitespace, an optional
      sign, then decimal digits. */
  function ParseInt(s: string): Option<int> {
    var t := PyStrip(s);
    var negative := t != [] && t[0] == '-';
    var digits := if t != [] && (t[0] == '-' || t[0] == '+') then t[1..] else t;
    if digits != [] && AllDigits(digits) then
      var v: int := DigitsValue(digits);
      Some(if negative then -v else v)
    else None
  }

  /** The coercion applied to both line numbers before their types are
      checked: `None` when `int()` raises. */
  function CoerceInt(v: LineValue): Option<int> {
    match v
    case Number(n) => Some(n)
    case Text(s) => ParseInt(s)
    case Other => None
  }

  /** A TypeError raised in a validator is not turned into a validation
      error: it leaves validation, and the record loop, as it is. */
  predicate RaisesTypeError(r: RawRecord) {
    r.payload.startLine.Other? || r.payload.endLine.Other?
  }

  /** A record whose validation raises a TypeError is not valid either. */
  lemma TypeErrorInvalid(r: RawRecord)
    requires RaisesTypeError(r)
    ensures Validate(r).Err?
  {
  }

  /** Validating a payload: every failing field is reported, in field
      order. The line-order check compares with the validated start line,
      or 0 when the start line itself failed. */
  function ValidatePayload(p: RawPayload): Result<Payload, seq<Field>> {
    var start, end := CoerceInt(p.startLine), CoerceInt(p.endLine);
    var startSeen := if start.Some? then start.value else 0;
    var kindBad := p.kind !in AllowedKinds;
    var endBad := end.None? || (startSeen != 0 && end.value < startSeen);
    var errors := (if kindBad then [KindField] else []) +
                  (if start.None? then [StartLineField] else []) +
                  (if endBad then [EndLineField] else []);
    if errors == [] then
      Ok(Payload(p.repoId, p.path, p.kind, p.qualSymbol, start.value, end.value, p.text))
    else Err(errors)
  }

  function Validate(r: RawRecord): Result<Record, seq<Field>> {
    match ValidatePayload(r.payload)
    case Ok(p) => Ok(Record(r.id, r.vectorFields, p))
    case Err(e) => Err(e)
  }

  /** A kind is accepted exactly when it is struct, impl or fn. */
  lemma KindChecked(p: RawPayload)
    ensures ValidatePayload(p).Ok? ==> p.kind in AllowedKinds
    ensures ValidatePayload(p).Err? ==> (KindField in ValidatePayload(p).error <==> p.kind !in AllowedKinds)
  {
  }

  /** With both line numbers readable, the end line is rejected exactly when
      the start line is non-zero and the end line comes before it; a start
      line of 0 accepts any end line. */
  lemma LineOrderChecked(p: RawPayload, start: int, end: int)
    requires CoerceInt(p.startLine) == Some(start) && CoerceInt(p.endLine) == Some(end)
    ensures ValidatePayload(p).Err? ==>
      (EndLineField in ValidatePayload(p).error <==> start != 0 && end < start)
    ensures p.kind in AllowedKinds && (start == 0 || start <= end) ==>
      ValidatePayload(p) == Ok(Payload(p.repoId, p.path, p.kind, p.qualSymbol, start, end, p.text))
    ensures ValidatePayload(p).Ok? ==> (start == 0 || start <= ValidatePayload(p).value.endLine)
  {
  }

  /** A line number written out as text reads back as itself. */
  lemma CoerceRoundTrip(n: int)
    ensures CoerceInt(Text(IntToString(n))) == Some(n)
  {
    var t := IntToString(n);
    if n < 0 {
      var m: nat := -n;
      NegativeText(m);
      ParseSigned(t);
      DigitsValueOfNatToString(m);
      assert DigitsValue(t[1..]) == m;
    } else {
      ParseUnsigned(NatToString(n));
      DigitsValueOfNatToString(n);
    }
    assert ParseInt(t) == Some(n);
  }

  lemma NegativeText(m: nat)
    requires m > 0
    ensures |IntToString(-(m as int))| >= 2 && IntToString(-(m as int))[0] == '-'
    ensures IntToString(-(m as int))[1..] == NatToString(m) && AllDigits(NatToString(m))
  {
    assert IntToString(-(m as int)) == "-" + NatToString(m);
  }

  predicate AllDigits(s: string) {
    forall i :: 0 <= i < |s| ==> IsDigit(s[i])
  }

  lemma Unstripped(t: string)
    requires t != [] && !PyIsSpace(t[0]) && !PyIsSpace(t[|t| - 1])
    ensures PyStrip(t) == t
  {
    assert PyLStrip(t) == t;
  }

  lemma ParseUnsigned(s: string)
    requires s != [] && AllDigits(s)
    ensures ParseInt(s) == Some(DigitsValue(s) as int)
  {
    assert IsDigit(s[0]) && IsDigit(s[|s| - 1]);
    Unstripped(s);
  }

  lemma ParseSigned(t: string)
    requires |t| >= 2 && t[0] == '-' && AllDigits(t[1..])
    ensures ParseInt(t) == Some(-(DigitsValue(t[1..]) as int))
  {
    assert IsDigit(t[1..][|t| - 2]);
    Unstripped(t);
  }

  // ---------------------------------------------------------------------
  // Gathering

  /** What one file gave: the objects read from it, and whether reading
      then failed. */
  datatype FileRead = FileRead(objects: seq<RawRecord>, readError: bool)

  datatype BuildError = InvalidRecord(fields: seq<Field>) | ReadFailure | TypeFailure | UndefinedSys

  datatype Gathered = Records(records: seq<Record>) | Raised(error: BuildError)

  /** What happens to a bad record or file: strict gathering re-raises; the
      lenient path reports on standard error, which raises a NameError
      when the `sys` module is not imported. */
  function Failure(strict: bool, sysImported: bool, g: Gathered, e: BuildError): Gathered {
    if strict then Raised(e)
    else if sysImported then g
    else Raised(UndefinedSys)
  }

  function ObjectStep(g: Gathered, obj: RawRecord, strict: bool, sysImported: bool): Gathered {
    match g
    case Raised(_) => g
    case Records(rs) =>
      match Validate(obj)
      case Ok(r) => Records(rs + [r])
      case Err(e) => Failure(strict, sysImported, g, InvalidRecord(e))
  }

  function ObjectsStep(g: Gathered, objs: seq<RawRecord>, strict: bool, sysImported: bool): Gathered
    decreases |objs|
  {
    if objs == [] then g
    else ObjectStep(ObjectsStep(g, objs[..|objs| - 1], strict, sysImported), objs[|objs| - 1], strict, sysImported)
  }

  /** The index of the first record whose validation raises a TypeError,
      or the number of records when none does. */
  function FirstTypeError(objs: seq<RawRecord>): (k: nat)
    ensures k <= |objs|
    ensures forall j :: 0 <= j < k ==> !RaisesTypeError(objs[j])
    ensures k < |objs| ==> RaisesTypeError(objs[k])
    decreases |objs|
  {
    if objs == [] || RaisesTypeError(objs[0]) then 0 else 1 + FirstTypeError(objs[1..])
  }

  /** One file: its records up to the first TypeError, then the handler
      of the whole file for that TypeError or for a failed read. */
  function FileStep(g: Gathered, f: FileRead, strict: bool, sysImported: bool): Gathered {
    var k := FirstTypeError(f.objects);
    var h := ObjectsStep(g, Head(f.objects), strict, sysImported);
    if h.Records? && k < |f.objects| then Failure(strict, sysImported, h, TypeFailure)
    else if h.Records? && f.readError then Failure(strict, sysImported, h, ReadFailure)
    else h
  }

  /** The records gathered from the files, or the exception raised. */
  function Collect(files: seq<FileRead>, strict: bool, sysImported: bool): Gathered
    decreases |files|
  {
    if files == [] then Records([])
    else FileStep(Collect(files[..|files| - 1], strict, sysImported), files[|files| - 1], strict, sysImported)
  }

  /** The valid records among some objects, in order. */
  function ValidOf(objs: seq<RawRecord>): seq<Record>
    decreases |objs|
  {
    if objs == [] then []
    else
      var last := Validate(objs[|objs| - 1]);
      ValidOf(objs[..|objs| - 1]) + (if last.Ok? then [last.value] else [])
  }

  /** The valid records of a file before its first TypeError. */
  function FileValid(f: FileRead): seq<Record> { ValidOf(Head(f.objects)) }

  /** Every valid record of every file, in file order. */
  function AllValid(files: seq<FileRead>): seq<Record> {
    ConcatMap(files, FileValid)
  }

  predicate FileClean(f: FileRead) {
    !f.readError && AllRecordsValid(f.objects)
  }

  /** `build_index`'s gathering loops, with a bad record or file skipped
      in lenient mode. */
  method GatherRecords(files: seq<FileRead>, strict: bool) returns (g: Gathered)
    ensures g == Collect(files, strict, true)
  {
    var valid: seq<Record> := [];
    for i := 0 to |files|
      invariant Collect(files[..i], strict, true) == Records(valid)
    {
      CollectPrefixStep(files, i, strict, true);
      var h := GatherFile(valid, files[i], strict);
      match h
      case Raised(e) =>
        RaisedStaysFiles(files, strict, true, i + 1, e);
        return h;
      case Records(rs) =>
        valid := rs;
    }
    assert files[..|files|] == files;
    g := Records(valid);
  }

  /** The body of the file loop: the records of one file up to the first
      TypeError, then the file's handler. */
  method GatherFile(valid: seq<Record>, f: FileRead, strict: bool) returns (g: Gathered)
    ensures g == FileStep(Records(valid), f, strict, true)
  {
    var rs := valid;
    var k := 0;
    while k < |f.objects|
      invariant k <= FirstTypeError(f.objects)
      invariant ObjectsStep(Records(valid), f.objects[..k], strict, true) == Records(rs)
    {
      if RaisesTypeError(f.objects[k]) {
        break;
      }
      ObjectsPrefixStep(Records(valid), f.objects, k, strict, true);
      var h := ObjectStep(Records(rs), f.objects[k], strict, true);
      if h.Raised? {
        RaisedInFile(Records(valid), f, k, strict, h.error);
        return h;
      }
      rs := h.records;
      k := k + 1;
    }
    HeadReached(f.objects, k);
    if k < |f.objects| && strict {
      return Raised(TypeFailure);
    } else if k == |f.objects| && f.readError && strict {
      return Raised(ReadFailure);
    }
    g := Records(rs);
  }

  /** A record that raises inside a file decides the file's outcome. */
  lemma RaisedInFile(g: Gathered, f: FileRead, k: nat, strict: bool, e: BuildError)
    requires k < FirstTypeError(f.objects)
    requires ObjectsStep(g, f.objects[..k + 1], strict, true) == Raised(e)
    ensures FileStep(g, f, strict, true) == Raised(e)
  {
    var head := Head(f.objects);
    ObjectsSplit(g, head, k + 1, strict, true);
    assert head[..k + 1] == f.objects[..k + 1];
    RaisedAbsorbsObjects(e, head[k + 1..], strict, true);
  }

  lemma CollectPrefixStep(files: seq<FileRead>, i: nat, strict: bool, sysImported: bool)
    requires i < |files|
    ensures Collect(files[..i + 1], strict, sysImported) ==
      FileStep(Collect(files[..i], strict, sysImported), files[i], strict, sysImported)
  {
    assert files[..i + 1][..i] == files[..i];
  }

  lemma ObjectsPrefixStep(g: Gathered, objs: seq<RawRecord>, k: nat, strict: bool, sysImported: bool)
    requires k < |objs|
    ensures ObjectsStep(g, objs[..k + 1], strict, sysImported) ==
      ObjectStep(ObjectsStep(g, objs[..k], strict, sysImported), objs[k], strict, sysImported)
  {
    assert objs[..k + 1][..k] == objs[..k];
  }

  /** Once an exception is raised, it is what the gathering ends with. */
  lemma {:induction false} RaisedAbsorbsObjects(e: BuildError, objs: seq<RawRecord>, strict: bool, sysImported: bool)
    ensures ObjectsStep(Raised(e), objs, strict, sysImported) == Raised(e)
    decreases |objs|
  {
    if objs != [] {
      RaisedAbsorbsObjects(e, objs[..|objs| - 1], strict, sysImported);
    }
  }

  lemma {:induction false} RaisedStaysFiles(files: seq<FileRead>, strict: bool, sysImported: bool, n: nat, e: BuildError)
    requires n <= |files| && Collect(files[..n], strict, sysImported) == Raised(e)
    ensures Collect(files, strict, sysImported) == Raised(e)
    decreases |files| - n
  {
    if n < |files| {
      CollectPrefixStep(files, n, strict, sysImported);
      RaisedAbsorbsObjects(e, Head(files[n].objects), strict, sysImported);
      RaisedStaysFiles(files, strict, sysImported, n + 1, e);
    } else {
      assert files[..n] == files;
    }
  }

  lemma {:induction false} ObjectsSplit(g: Gathered, objs: seq<RawRecord>, n: nat, strict: bool, sysImported: bool)
    requires n <= |objs|
    ensures ObjectsStep(g, objs, strict, sysImported) ==
      ObjectsStep(ObjectsStep(g, objs[..n], strict, sysImported), objs[n..], strict, sysImported)
    decreases |objs|
  {
    if n == |objs| {
      assert objs[..n] == objs;
      assert objs[n..] == [];
    } else {
      ObjectsSplit(g, objs[..|objs| - 1], n, strict, sysImported);
      assert objs[..|objs| - 1][..n] == objs[..n];
      assert objs[n..][..|objs[n..]| - 1] == objs[..|objs| - 1][n..];
    }
  }

  /** The records of a file that are read before the first TypeError. */
  function Head(objs: seq<RawRecord>): seq<RawRecord> {
    objs[..FirstTypeError(objs)]
  }

  lemma HeadReached(objs: seq<RawRecord>, k: nat)
    requires k <= FirstTypeError(objs)
    requires k == |objs| || RaisesTypeError(objs[k])
    ensures k == FirstTypeError(objs) && objs[..k] == Head(objs)
  {
  }

  /** With `sys` imported, lenient gathering never raises: it yields every
      valid record of every file, in order. */
  lemma {:induction false} LenientGatherSkips(files: seq<FileRead>)
    ensures Collect(files, false, true) == Records(AllValid(files))
    decreases |files|
  {
    if files != [] {
      var init, f := files[..|files| - 1], files[|files| - 1];
      LenientGatherSkips(init);
      LenientObjects(AllValid(init), Head(f.objects));
      assert AllValid(files) == AllValid(init) + FileValid(f);
    }
  }

  lemma {:induction false} LenientObjects(acc: seq<Record>, objs: seq<RawRecord>)
    ensures ObjectsStep(Records(acc), objs, false, true) == Records(acc + ValidOf(objs))
    decreases |objs|
  {
    if objs == [] {
      assert acc + [] == acc;
    } else {
      var init := objs[..|objs| - 1];
      LenientObjects(acc, init);
      var last := Validate(objs[|objs| - 1]);
      AppendAssoc(acc, ValidOf(init), if last.Ok? then [last.value] else []);
    }
  }

  /** Strict gathering succeeds exactly when every file was read and every
      record is valid, and then yields the same records as lenient
      gathering. */
  lemma {:induction false} StrictGather(files: seq<FileRead>)
    ensures Collect(files, true, true).Records? <==> All(files, FileClean)
    ensures Collect(files, true, true).Records? ==> Collect(files, true, true) == Records(AllValid(files))
    decreases |files|
  {
    if files != [] {
      var init, f := files[..|files| - 1], files[|files| - 1];
      StrictGather(init);
      AllDropLast(files, FileClean);
      var g := Collect(init, true, true);
      if g.Records? {
        StrictFile(g.records, f);
        assert AllValid(files) == AllValid(init) + FileValid(f);
      } else {
        RaisedAbsorbsObjects(g.error, Head(f.objects), true, true);
      }
    }
  }

  lemma StrictFile(acc: seq<Record>, f: FileRead)
    ensures FileStep(Records(acc), f, true, true).Records? <==> FileClean(f)
    ensures FileStep(Records(acc), f, true, true).Records? ==>
      FileStep(Records(acc), f, true, true) == Records(acc + FileValid(f))
  {
    var objs := f.objects;
    var k := FirstTypeError(objs);
    StrictObjects(acc, Head(objs));
    if k < |objs| {
      TypeErrorInvalid(objs[k]);
    } else {
      assert Head(objs) == objs;
    }
  }

  lemma {:induction false} StrictObjects(acc: seq<Record>, objs: seq<RawRecord>)
    ensures ObjectsStep(Records(acc), objs, true, true).Records? <==> AllRecordsValid(objs)
    ensures ObjectsStep(Records(acc), objs, true, true).Records? ==>
      ObjectsStep(Records(acc), objs, true, true) == Records(acc + ValidOf(objs))
    decreases |objs|
  {
    if objs == [] {
      assert acc + [] == acc;
    } else {
      StrictObjects(acc, objs[..|objs| - 1]);
      StrictObjectsStep(acc, objs);
    }
  }

  predicate ValidRecord(r: RawRecord) { Validate(r).Ok? }

  predicate AllRecordsValid(objs: seq<RawRecord>) { All(objs, ValidRecord) }

  lemma StrictObjectsStep(acc: seq<Record>, objs: seq<RawRecord>)
    requires objs != []
    requires var h := ObjectsStep(Records(acc), objs[..|objs| - 1], true, true);
      (h.Records? <==> AllRecordsValid(objs[..|objs| - 1])) &&
      (h.Records? ==> h == Records(acc + ValidOf(objs[..|objs| - 1])))
    ensures ObjectsStep(Records(acc), objs, true, true).Records? <==> AllRecordsValid(objs)
    ensures ObjectsStep(Records(acc), objs, true, true).Records? ==>
      ObjectsStep(Records(acc), objs, true, true) == Records(acc + ValidOf(objs))
  {
    var init, last := objs[..|objs| - 1], Validate(objs[|objs| - 1]);
    AllDropLast(objs, ValidRecord);
    if ObjectsStep(Records(acc), init, true, true).Records? && last.Ok? {
      AppendAssoc(acc, ValidOf(init), [last.value]);
    }
  }

  /** A record whose line number cannot be converted ends its file: the
      TypeError escapes validation, so lenient gathering keeps only the
      valid records read before it, and strict gathering, having met no
      invalid record before it, raises it. */
  lemma TypeErrorEndsFile(acc: seq<Record>, f: FileRead)
    requires FirstTypeError(f.objects) < |f.objects|
    ensures FileStep(Records(acc), f, false, true) == Records(acc + FileValid(f))
    ensures AllRecordsValid(Head(f.objects)) ==> FileStep(Records(acc), f, true, true) == Raised(TypeFailure)
  {
    LenientObjects(acc, Head(f.objects));
    StrictObjects(acc, Head(f.objects));
  }

  /** As written, the lenient path names `sys` without importing it: a
      single invalid record, meant to be skipped, raises a NameError. */
  lemma UnimportedSysRaises(bad: RawRecord)
    requires Validate(bad).Err?
    ensures Collect([FileRead([bad], false)], false, false) == Raised(UndefinedSys)
    ensures Collect([FileRead([bad], false)], false, true) == Records([])
  {
    var files := [FileRead([bad], false)];
    var noFiles, noObjects := files[..0], [bad][..0];
    assert noFiles == [] && noObjects == [];
    assert Collect(noFiles, false, false) == Records([]);
    assert ObjectsStep(Records([]), [bad], false, false) ==
      ObjectStep(ObjectsStep(Records([]), noObjects, false, false), bad, false, false);
    assert ObjectsStep(Records([]), [bad], false, true) ==
      ObjectStep(ObjectsStep(Records([]), noObjects, false, true), bad, false, true);
  }

  /** As written, lenient gathering raises exactly when strict gathering
      would. */
  lemma {:induction false} AsWrittenLenientRaises(files: seq<FileRead>)
    ensures Collect(files, false, false).Raised? <==> Collect(files, true, true).Raised?
    decreases |files|
  {
    if files != [] {
      var init, f := files[..|files| - 1], files[|files| - 1];
      AsWrittenLenientRaises(init);
      var g, h := Collect(init, false, false), Collect(init, true, true);
      if g.Records? && h.Records? {
        AsWrittenObjects(g.records, h.records, Head(f.objects));
      } else {
        RaisedAbsorbsObjects(g.error, Head(f.objects), false, false);
        RaisedAbsorbsObjects(h.error, Head(f.objects), true, true);
      }
    }
  }

  lemma {:induction false} AsWrittenObjects(a: seq<Record>, b: seq<Record>, objs: seq<RawRecord>)
    ensures ObjectsStep(Records(a), objs, false, false).Raised? <==>
      ObjectsStep(Records(b), objs, true, true).Raised?
    decreases |objs|
  {
    if objs != [] {
      var init := objs[..|objs| - 1];
      AsWrittenObjects(a, b, init);
    }
  }

  // ---------------------------------------------------------------------
  // Batches

  /** `_batched`: consecutive slices of `size` elements, the last possibly
      shorter. */
  function Batched<T>(xs: seq<T>, size: nat): seq<seq<T>>
    requires size >= 1
    decreases |xs|
  {
    if xs == [] then []
    else if |xs| <= size then [xs]
    else [xs[..size]] + Batched(xs[size..], size)
  }

  /** The slices put back together give the input. */
  lemma {:induction false} BatchedFlatten<T>(xs: seq<T>, size: nat)
    requires size >= 1
    ensures Flatten(Batched(xs, size)) == xs
    decreases |xs|
  {
    if xs != [] && |xs| > size {
      BatchedFlatten(xs[size..], size);
      assert Batched(xs, size)[1..] == Batched(xs[size..], size);
      assert xs[..size] + xs[size..] == xs;
    } else if xs != [] {
      var b := Batched(xs, size);
      assert b == [xs] && b[1..] == [];
      assert xs + [] == xs;
    }
  }

  /** There are ceil(n / size) slices. */
  lemma {:induction false} BatchedCount<T>(xs: seq<T>, size: nat)
    requires size >= 1
    ensures |Batched(xs, size)| == (|xs| + size - 1) / size
    decreases |xs|
  {
    if xs != [] && |xs| > size {
      var rest := xs[size..];
      BatchedCount(rest, size);
      DivStep(|rest| + size - 1, size);
      assert |xs| + size - 1 == (|rest| + size - 1) + size;
    } else if xs != [] {
      DivOne(|xs| + size - 1, size);
    }
  }

  /** Every slice holds `size` elements but the last, which holds between
      1 and `size`. */
  lemma {:induction false} BatchedSizes<T>(xs: seq<T>, size: nat)
    requires size >= 1
    ensures forall i :: 0 <= i < |Batched(xs, size)| - 1 ==> |Batched(xs, size)[i]| == size
    ensures Batched(xs, size) != [] ==> 1 <= |Batched(xs, size)[|Batched(xs, size)| - 1]| <= size
    decreases |xs|
  {
    if xs != [] && |xs| > size {
      var b, rest := Batched(xs, size), Batched(xs[size..], size);
      BatchedSizes(xs[size..], size);
      assert b == [xs[..size]] + rest;
      assert forall i :: 1 <= i < |b| ==> b[i] == rest[i - 1];
    }
  }

  lemma DivOne(a: nat, d: nat)
    requires d <= a < 2 * d
    ensures a / d == 1
  {
  }

  lemma DivStep(a: nat, d: nat)
    requires d >= 1
    ensures (a + d) / d == a / d + 1
  {
    var q, r := a / d, a % d;
    assert a == q * d + r;
    assert a + d == (q + 1) * d + r;
    DivUnique(a + d, d, q + 1, r);
  }

  lemma DivUnique(a: int, d: int, q: int, r: int)
    requires d >= 1 && 0 <= r < d && a == q * d + r
    ensures a / d == q
  {
    var q', r' := a / d, a % d;
    assert (q' - q) * d == r - r';
    if q' > q {
      MulAtLeast(q' - q, d);
    } else if q' < q {
      MulAtLeast(q - q', d);
    }
  }

  lemma {:induction false} MulAtLeast(x: int, d: int)
    requires x >= 1 && d >= 1
    ensures x * d >= d
    decreases x
  {
    if x > 1 {
      MulAtLeast(x - 1, d);
      assert x * d == (x - 1) * d + d;
    }
  }

  // ---------------------------------------------------------------------
  // Points and upserts

  datatype VectorName = SignatureVector | IdentifiersVector | CodeBodyVector | DocCommentVector

  /** The text embedded for one vector. */
  function FieldText(f: VectorFields, n: VectorName): string {
    match n
    case SignatureVector => f.signature
    case IdentifiersVector => f.identifiers
    case CodeBodyVector => f.codeBody
    case DocCommentVector => f.docComment
  }

  /** A point: the record's id (hashed in the store), a vector per field
      (here, the text embedded for it), the fields and the metadata. */
  datatype Point = Point(id: string, vectors: map<VectorName, string>, fields: VectorFields, meta: Payload)

  function PointOf(r: Record): Point {
    var f := r.vectorFields;
    Point(r.id,
          map[SignatureVector := f.signature, IdentifiersVector := f.identifiers,
              CodeBodyVector := f.codeBody, DocCommentVector := f.docComment],
          f, r.payload)
  }

  /** Every point carries exactly the four vectors, each from its own
      field. */
  lemma PointVectors(r: Record)
    ensures PointOf(r).vectors.Keys == {SignatureVector, IdentifiersVector, CodeBodyVector, DocCommentVector}
    ensures forall n :: n in PointOf(r).vectors ==> PointOf(r).vectors[n] == FieldText(r.vectorFields, n)
  {
  }

  function Points(rs: seq<Record>): (ps: seq<Point>)
    ensures |ps| == |rs|
  {
    seq(|rs|, i requires 0 <= i < |rs| => PointOf(rs[i]))
  }

  function PointBatches(batches: seq<seq<Record>>): (r: seq<seq<Point>>)
    ensures |r| == |batches|
  {
    seq(|batches|, i requires 0 <= i < |batches| => Points(batches[i]))
  }

  datatype Config = Config(batchSize: nat, strict: bool, dryRun: bool)

  /** What a build does: whether the collection was ensured, the batches
      upserted, and the count returned or the exception raised. */
  datatype BuildOutcome = BuildOutcome(collectionEnsured: bool, upserts: seq<seq<Point>>, result: Result<nat, BuildError>)

  function Built(files: seq<FileRead>, cfg: Config, hasClient: bool): BuildOutcome
    requires cfg.batchSize >= 1
  {
    var upload := !cfg.dryRun && hasClient;
    match Collect(files, cfg.strict, true)
    case Raised(e) => BuildOutcome(upload, [], Err(e))
    case Records(rs) =>
      if rs == [] then BuildOutcome(upload, [], Ok(0))
      else if upload then BuildOutcome(true, PointBatches(Batched(rs, cfg.batchSize)), Ok(|rs|))
      else BuildOutcome(false, [], Ok(0))
  }

  /** `build_index` after reading: gather, then build the points batch by
      batch, upserting each batch when not a dry run and a client is
      given. */
  method BuildIndex(files: seq<FileRead>, cfg: Config, hasClient: bool) returns (outcome: BuildOutcome)
    requires cfg.batchSize >= 1
    ensures outcome == Built(files, cfg, hasClient)
  {
    var upload := !cfg.dryRun && hasClient;
    var g := GatherRecords(files, cfg.strict);
    match g
    case Raised(e) =>
      return BuildOutcome(upload, [], Err(e));
    case Records(valid) =>
      if valid == [] {
        return BuildOutcome(upload, [], Ok(0));
      }
      var calls, total := UpsertBatches(valid, cfg.batchSize, upload);
      return BuildOutcome(upload, calls, Ok(total));
  }

  /** The batch loop: points built for every batch, sent and counted only
      when uploading. */
  method UpsertBatches(records: seq<Record>, size: nat, upload: bool)
    returns (calls: seq<seq<Point>>, total: nat)
    requires size >= 1
    ensures calls == (if upload then PointBatches(Batched(records, size)) else [])
    ensures total == (if upload then |records| else 0)
  {
    var batches := Batched(records, size);
    calls, total := [], 0;
    for b := 0 to |batches|
      invariant calls == (if upload then PointBatches(batches[..b]) else [])
      invariant total == (if upload then |Flatten(batches[..b])| else 0)
    {
      var points: seq<Point> := [];
      for k := 0 to |batches[b]|
        invariant points == Points(batches[b][..k])
      {
        points := points + [PointOf(batches[b][k])];
      }
      assert batches[b][..|batches[b]|] == batches[b];
      assert batches[..b + 1] == batches[..b] + [batches[b]];
      FlattenAppend(batches[..b], batches[b]);
      if upload {
        calls := calls + [points];
        total := total + |points|;
      }
    }
    assert batches[..|batches|] == batches;
    BatchedFlatten(records, size);
  }

  /** Every valid record is upserted exactly once, in order, in batches of
      at most the batch size, and the count returned is their number. */
  lemma BuildUpserts(files: seq<FileRead>, cfg: Config, hasClient: bool)
    requires cfg.batchSize >= 1
    ensures var o := Built(files, cfg, hasClient);
      o.result.Ok? && !cfg.dryRun && hasClient ==>
        Flatten(o.upserts) == Points(AllValid(files)) && o.result.value == |AllValid(files)|
    ensures var o := Built(files, cfg, hasClient);
      forall i :: 0 <= i < |o.upserts| ==> |o.upserts[i]| <= cfg.batchSize
  {
    StrictGather(files);
    LenientGatherSkips(files);
    var g := Collect(files, cfg.strict, true);
    if g.Records? && g.records != [] && !cfg.dryRun && hasClient {
      var rs := g.records;
      var b := Batched(rs, cfg.batchSize);
      BatchedFlatten(rs, cfg.batchSize);
      BatchedSizes(rs, cfg.batchSize);
      FlattenPoints(b);
    }
  }

  /** A dry run or a missing client upserts nothing and returns 0, and
      lenient building never fails. */
  lemma BuildWithoutUpload(files: seq<FileRead>, cfg: Config, hasClient: bool)
    requires cfg.batchSize >= 1
    ensures var o := Built(files, cfg, hasClient);
      (cfg.dryRun || !hasClient) ==> o.upserts == [] && (o.result.Ok? ==> o.result.value == 0)
    ensures !cfg.strict ==> Built(files, cfg, hasClient).result.Ok?
    ensures Built(files, cfg, hasClient).collectionEnsured <==> !cfg.dryRun && hasClient
  {
    LenientGatherSkips(files);
  }

  lemma {:induction false} FlattenPoints(batches: seq<seq<Record>>)
    ensures Flatten(PointBatches(batches)) == Points(Flatten(batches))
    decreases |batches|
  {
    if batches != [] {
      FlattenPoints(batches[1..]);
      assert PointBatches(batches)[1..] == PointBatches(batches[1..]);
      PointsAppend(batches[0], Flatten(batches[1..]));
    }
  }

  lemma PointsAppend(a: seq<Record>, b: seq<Record>)
    ensures Points(a + b) == Points(a) + Points(b)
  {
  }
}
