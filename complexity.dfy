// The per-function complexity metrics of the Rust analyzer: a visitor walks
// a function body, counting decision points, loops, calls, macros, `use`
// dependencies and unsafe blocks while tracking how deeply constructs nest;
// the counts then give the cyclomatic and cognitive scores and a rating.
//
// The syntax tree is abstract: each expression kind the visitor reacts to is
// a constructor, and everything else is `OtherExpr` with its children.

module Complexity {
  import opened Common

  // ---------------------------------------------------------------------
  // Ratings

  datatype Rating = Low | Medium | High | VeryHigh

  /** `ComplexityRating::from_score`. */
  function FromScore(score: nat): Rating {
    if 1 <= score <= 5 then Low
    else if 6 <= score <= 10 then Medium
    else if 11 <= score <= 20 then High
    else VeryHigh
  }

  /** The position of a rating on the scale from Low to VeryHigh. */
  function Rank(r: Rating): nat {
    match r
    case Low => 0
    case Medium => 1
    case High => 2
    case VeryHigh => 3
  }

  /** The bands of the scale, each in both directions; a score of 0 falls
      into the last band. */
  lemma FromScoreBands(score: nat)
    ensures FromScore(score) == Low <==> 1 <= score <= 5
    ensures FromScore(score) == Medium <==> 6 <= score <= 10
    ensures FromScore(score) == High <==> 11 <= score <= 20
    ensures FromScore(score) == VeryHigh <==> score == 0 || score > 20
  {
  }

  /** Among positive scores a larger score never gets a lower rating. */
  lemma FromScoreMonotone(a: nat, b: nat)
    requires 1 <= a <= b
    ensures Rank(FromScore(a)) <= Rank(FromScore(b))
  {
  }

  /** The `Display` text of a rating. */
  function RatingText(r: Rating): (t: string)
    ensures t != []
  {
    match r
    case Low => "Low"
    case Medium => "Medium"
    case High => "High"
    case VeryHigh => "Very High"
  }

  /** The rating a display text stands for, if any. */
  function RatingOfText(t: string): Option<Rating> {
    if t == "Low" then Some(Low)
    else if t == "Medium" then Some(Medium)
    else if t == "High" then Some(High)
    else if t == "Very High" then Some(VeryHigh)
    else None
  }

  /** The display text determines the rating: different ratings display
      differently. */
  lemma RatingTextRoundTrip(r: Rating)
    ensures RatingOfText(RatingText(r)) == Some(r)
  {
  }

  // ---------------------------------------------------------------------
  // The abstract syntax

  datatype UseTree =
    | UsePath(ident: string, tree: UseTree)
    | UseName(name: string)
    | UseGroup(items: seq<UseTree>)
    | UseOther   // a rename or a glob

  /** A function: its name, its parameter and generic-parameter counts and
      the expressions of its body. */
  datatype Function = Function(name: string, params: nat, generics: nat, body: seq<Expr>)

  datatype Expr =
    | IfExpr(body: seq<Expr>)
    | MatchExpr(arms: nat, body: seq<Expr>)
    | WhileExpr(body: seq<Expr>)
    | ForExpr(body: seq<Expr>)
    | LoopExpr(body: seq<Expr>)
      // the callee's last path segment, when the callee is a path
    | CallExpr(callee: Option<string>, body: seq<Expr>)
    | MacroExpr(path: seq<string>)
    | UnsafeExpr(body: seq<Expr>)
    | UseItem(tree: UseTree)
    | FnItem(f: Function)
    | OtherExpr(body: seq<Expr>)

  /** `ComplexityDetails`. */
  datatype Details = Details(
    ifStatements: nat, matchArms: nat, loops: nat, nestedFunctions: nat,
    functionCalls: nat, maxNestingDepth: nat, functionCallChain: seq<string>,
    macroInvocations: seq<string>, moduleDependencies: seq<string>,
    unsafeBlocks: nat, genericParameters: nat)

  const Zero := Details(0, 0, 0, 0, 0, 0, [], [], [], 0, 0)

  function Deeper(a: nat, b: nat): nat { if a < b then b else a }

  // ---------------------------------------------------------------------
  // Use trees

  /** The dependencies recorded by `collect_use_path` below the path
      `parts`: each leaf name completes one path. */
  function CollectedPaths(t: UseTree, parts: seq<string>): seq<string>
    decreases t
  {
    match t
    case UsePath(id, sub) => CollectedPaths(sub, parts + [id])
    case UseName(id) => [Join(parts + [id], "::")]
    case UseGroup(items) => CollectedPathsAll(items, parts)
    case UseOther => []
  }

  function CollectedPathsAll(items: seq<UseTree>, parts: seq<string>): seq<string>
    decreases items
  {
    if items == [] then []
    else CollectedPathsAll(items[..|items| - 1], parts) + CollectedPaths(items[|items| - 1], parts)
  }

  /** The dependencies recorded by `visit_use_tree`: the tree's own
      entries, then, because the visit goes on into the subtrees, those of
      each subtree again. */
  function UseDeps(t: UseTree): seq<string>
    decreases t
  {
    match t
    case UsePath(id, sub) => CollectedPaths(sub, [id]) + UseDeps(sub)
    case UseName(id) => [id]
    case UseGroup(items) => UseDepsAll(items) + UseDepsAll(items)
    case UseOther => []
  }

  function UseDepsAll(items: seq<UseTree>): seq<string>
    decreases items
  {
    if items == [] then [] else UseDepsAll(items[..|items| - 1]) + UseDeps(items[|items| - 1])
  }

  /** `use a::b;` records the full path `a::b` and then, from the nested
      visit, the bare name `b`. */
  lemma UseOfPath(a: string, b: string)
    ensures UseDeps(UsePath(a, UseName(b))) == [a + "::" + b, b]
  {
    assert [a] + [b] == [a, b];
    assert Join([a, b], "::") == a + "::" + Join([b], "::");
  }

  /** The items of a group are visited twice, once explicitly and once by
      the default traversal, so each of their dependencies is recorded
      twice. */
  lemma UseGroupTwice(items: seq<UseTree>)
    ensures |UseDeps(UseGroup(items))| == 2 * |UseDepsAll(items)|
    ensures UseDeps(UseGroup(items))[..|UseDepsAll(items)|] == UseDepsAll(items)
  {
  }

  // ---------------------------------------------------------------------
  // What one visit adds

  /** Sequential composition of two contributions: counts add up, the
      recorded names follow each other and the deeper nesting wins. */
  function Combine(a: Details, b: Details): Details {
    Details(
      a.ifStatements + b.ifStatements, a.matchArms + b.matchArms, a.loops + b.loops,
      a.nestedFunctions + b.nestedFunctions, a.functionCalls + b.functionCalls,
      Deeper(a.maxNestingDepth, b.maxNestingDepth),
      a.functionCallChain + b.functionCallChain, a.macroInvocations + b.macroInvocations,
      a.moduleDependencies + b.moduleDependencies,
      a.unsafeBlocks + b.unsafeBlocks, a.genericParameters + b.genericParameters)
  }

  /** A contribution made one level deeper. */
  function Nest(t: Details): Details {
    t.(maxNestingDepth := t.maxNestingDepth + 1)
  }

  /** The details after adding a contribution `t` gathered at nesting
      depth `depth`, where `maxNestingDepth` of `t` is measured from
      `depth`. */
  function Absorb(d: Details, depth: nat, t: Details): Details {
    Combine(d, t).(maxNestingDepth := Deeper(d.maxNestingDepth, depth + t.maxNestingDepth))
  }

  /** The contribution of one expression. */
  function Tally(e: Expr): Details
    decreases e
  {
    match e
    case IfExpr(body) =>
      var t := Nest(TallyAll(body)); t.(ifStatements := t.ifStatements + 1)
    case MatchExpr(arms, body) =>
      var t := Nest(TallyAll(body)); t.(matchArms := t.matchArms + arms)
    case WhileExpr(body) =>
      var t := Nest(TallyAll(body)); t.(loops := t.loops + 1)
    case ForExpr(body) =>
      var t := Nest(TallyAll(body)); t.(loops := t.loops + 1)
    case LoopExpr(body) =>
      var t := Nest(TallyAll(body)); t.(loops := t.loops + 1)
    case CallExpr(callee, body) =>
      var own := Zero.(functionCalls := 1,
                       functionCallChain := if callee.Some? then [callee.value] else []);
      Combine(own, TallyAll(body))
    case MacroExpr(path) =>
      Zero.(macroInvocations := [Join(path, "::")])
    case UnsafeExpr(body) =>
      var t := Nest(TallyAll(body)); t.(unsafeBlocks := t.unsafeBlocks + 1)
    case UseItem(tree) =>
      Zero.(moduleDependencies := UseDeps(tree))
    case FnItem(f) =>
      Combine(Zero.(nestedFunctions := 1, genericParameters := f.generics), TallyAll(f.body))
    case OtherExpr(body) =>
      TallyAll(body)
  }

  function TallyAll(es: seq<Expr>): Details
    decreases es
  {
    if es == [] then Zero else Combine(TallyAll(es[..|es| - 1]), Tally(es[|es| - 1]))
  }

  /** Absorbing two contributions in turn is absorbing their composition. */
  lemma AbsorbCombine(d: Details, depth: nat, a: Details, b: Details)
    ensures Absorb(Absorb(d, depth, a), depth, b) == Absorb(d, depth, Combine(a, b))
  {
    assert d.functionCallChain + a.functionCallChain + b.functionCallChain
        == d.functionCallChain + (a.functionCallChain + b.functionCallChain);
    assert d.macroInvocations + a.macroInvocations + b.macroInvocations
        == d.macroInvocations + (a.macroInvocations + b.macroInvocations);
    assert d.moduleDependencies + a.moduleDependencies + b.moduleDependencies
        == d.moduleDependencies + (a.moduleDependencies + b.moduleDependencies);
  }

  lemma AbsorbZero(d: Details, depth: nat)
    requires depth <= d.maxNestingDepth
    ensures Absorb(d, depth, Zero) == d
  {
    assert d.functionCallChain + [] == d.functionCallChain;
    assert d.macroInvocations + [] == d.macroInvocations;
    assert d.moduleDependencies + [] == d.moduleDependencies;
  }

  // ---------------------------------------------------------------------
  // The visitor

  /** `ComplexityVisitor`: the details gathered so far, the current nesting
      depth and a line count that nothing ever updates. */
  class ComplexityVisitor {
    var details: Details
    var nestingDepth: nat
    var lineCount: nat

    /** The deepest nesting seen is at least the current one. */
    predicate Valid()
      reads this
    {
      nestingDepth <= details.maxNestingDepth
    }

    constructor()
      ensures details == Zero && nestingDepth == 0 && lineCount == 0 && Valid()
    {
      details := Zero;
      nestingDepth := 0;
      lineCount := 0;
    }

    method EnterNesting()
      modifies this
      ensures nestingDepth == old(nestingDepth) + 1
      ensures details == old(details).(maxNestingDepth :=
        Deeper(old(details).maxNestingDepth, old(nestingDepth) + 1))
      ensures lineCount == old(lineCount)
      ensures Valid()
    {
      nestingDepth := nestingDepth + 1;
      if nestingDepth > details.maxNestingDepth {
        details := details.(maxNestingDepth := nestingDepth);
      }
    }

    /** Decrements the depth, stopping at zero. */
    method ExitNesting()
      modifies this
      ensures nestingDepth == if old(nestingDepth) == 0 then 0 else old(nestingDepth) - 1
      ensures details == old(details) && lineCount == old(lineCount)
      ensures old(Valid()) ==> Valid()
    {
      nestingDepth := if nestingDepth == 0 then 0 else nestingDepth - 1;
    }

    /** `collect_use_path`: records each full path below `parts`. */
    method CollectUsePath(t: UseTree, parts: seq<string>)
      modifies this
      ensures details == old(details).(moduleDependencies :=
        old(details).moduleDependencies + CollectedPaths(t, parts))
      ensures nestingDepth == old(nestingDepth) && lineCount == old(lineCount)
      decreases t, 1
    {
      match t
      case UsePath(id, sub) =>
        CollectUsePath(sub, parts + [id]);
      case UseName(id) =>
        details := details.(moduleDependencies := details.moduleDependencies + [Join(parts + [id], "::")]);
      case UseGroup(items) =>
        CollectUsePathAll(items, parts);
      case UseOther =>
        assert old(details).moduleDependencies + [] == old(details).moduleDependencies;
    }

    method CollectUsePathAll(items: seq<UseTree>, parts: seq<string>)
      modifies this
      ensures details == old(details).(moduleDependencies :=
        old(details).moduleDependencies + CollectedPathsAll(items, parts))
      ensures nestingDepth == old(nestingDepth) && lineCount == old(lineCount)
      decreases items, 0
    {
      ghost var start := details.moduleDependencies;
      assert start + [] == start;
      for i := 0 to |items|
        invariant details == old(details).(moduleDependencies := start + CollectedPathsAll(items[..i], parts))
        invariant nestingDepth == old(nestingDepth) && lineCount == old(lineCount)
      {
        CollectUsePath(items[i], parts);
        assert items[..i + 1][..i] == items[..i];
      }
      assert items[..|items|] == items;
    }

    /** `visit_use_tree`. */
    method VisitUseTree(t: UseTree)
      modifies this
      ensures details == old(details).(moduleDependencies :=
        old(details).moduleDependencies + UseDeps(t))
      ensures nestingDepth == old(nestingDepth) && lineCount == old(lineCount)
      decreases t, 1
    {
      match t
      case UsePath(id, sub) =>
        CollectUsePath(sub, [id]);
        VisitUseTree(sub);
      case UseName(id) =>
        details := details.(moduleDependencies := details.moduleDependencies + [id]);
      case UseGroup(items) =>
        VisitUseTreeAll(items);
        VisitUseTreeAll(items);
      case UseOther =>
        assert old(details).moduleDependencies + [] == old(details).moduleDependencies;
    }

    method VisitUseTreeAll(items: seq<UseTree>)
      modifies this
      ensures details == old(details).(moduleDependencies :=
        old(details).moduleDependencies + UseDepsAll(items))
      ensures nestingDepth == old(nestingDepth) && lineCount == old(lineCount)
      decreases items, 0
    {
      ghost var start := details.moduleDependencies;
      assert start + [] == start;
      for i := 0 to |items|
        invariant details == old(details).(moduleDependencies := start + UseDepsAll(items[..i]))
        invariant nestingDepth == old(nestingDepth) && lineCount == old(lineCount)
      {
        VisitUseTree(items[i]);
        assert items[..i + 1][..i] == items[..i];
      }
      assert items[..|items|] == items;
    }

    /** The visit of one expression: its contribution is absorbed at the
        current depth, and the depth afterwards is the depth before. */
    method Visit(e: Expr)
      requires Valid()
      modifies this
      ensures Valid() && nestingDepth == old(nestingDepth) && lineCount == old(lineCount)
      ensures details == Absorb(old(details), old(nestingDepth), Tally(e))
      decreases e, 3
    {
      match e
      case IfExpr(body) => VisitIf(body);
      case MatchExpr(arms, body) => VisitMatch(arms, body);
      case WhileExpr(body) => VisitLoopKind(e);
      case ForExpr(body) => VisitLoopKind(e);
      case LoopExpr(body) => VisitLoopKind(e);
      case CallExpr(callee, body) => VisitCall(callee, body);
      case MacroExpr(path) => VisitMacro(path);
      case UnsafeExpr(body) => VisitUnsafe(body);
      case UseItem(tree) => VisitUseTree(tree);
      case FnItem(f) => VisitItemFn(f);
      case OtherExpr(body) => VisitAll(body);
    }

    /** `visit_expr_if`: one more `if`, its children one level deeper. */
    method VisitIf(body: seq<Expr>)
      requires Valid()
      modifies this
      ensures Valid() && nestingDepth == old(nestingDepth) && lineCount == old(lineCount)
      ensures details == Absorb(old(details), old(nestingDepth), Tally(IfExpr(body)))
      decreases body, 2
    {
      details := details.(ifStatements := details.ifStatements + 1);
      VisitNested(body);
    }

    /** `visit_expr_match`: the number of arms, not one, is added. */
    method VisitMatch(arms: nat, body: seq<Expr>)
      requires Valid()
      modifies this
      ensures Valid() && nestingDepth == old(nestingDepth) && lineCount == old(lineCount)
      ensures details == Absorb(old(details), old(nestingDepth), Tally(MatchExpr(arms, body)))
      decreases body, 2
    {
      details := details.(matchArms := details.matchArms + arms);
      VisitNested(body);
    }

    /** `visit_expr_while`, `visit_expr_for_loop` and `visit_expr_loop`:
        one more loop, its children one level deeper. */
    method VisitLoopKind(e: Expr)
      requires e.WhileExpr? || e.ForExpr? || e.LoopExpr?
      requires Valid()
      modifies this
      ensures Valid() && nestingDepth == old(nestingDepth) && lineCount == old(lineCount)
      ensures details == Absorb(old(details), old(nestingDepth), Tally(e))
      decreases e, 2
    {
      details := details.(loops := details.loops + 1);
      VisitNested(e.body);
    }

    /** `visit_expr_unsafe`: one more unsafe block, its children one level
        deeper. */
    method VisitUnsafe(body: seq<Expr>)
      requires Valid()
      modifies this
      ensures Valid() && nestingDepth == old(nestingDepth) && lineCount == old(lineCount)
      ensures details == Absorb(old(details), old(nestingDepth), Tally(UnsafeExpr(body)))
      decreases body, 2
    {
      details := details.(unsafeBlocks := details.unsafeBlocks + 1);
      VisitNested(body);
    }

    /** `visit_expr_call`: one more call, the callee's name when it is a
        path, then the children at the same depth. */
    method VisitCall(callee: Option<string>, body: seq<Expr>)
      requires Valid()
      modifies this
      ensures Valid() && nestingDepth == old(nestingDepth) && lineCount == old(lineCount)
      ensures details == Absorb(old(details), old(nestingDepth), Tally(CallExpr(callee, body)))
      decreases body, 2
    {
      var own := Zero.(functionCalls := 1,
                       functionCallChain := if callee.Some? then [callee.value] else []);
      details := details.(functionCalls := details.functionCalls + 1);
      if callee.Some? {
        details := details.(functionCallChain := details.functionCallChain + [callee.value]);
      } else {
        assert details.functionCallChain + [] == details.functionCallChain;
      }
      assert details == Absorb(old(details), nestingDepth, own);
      VisitAll(body);
      AbsorbCombine(old(details), nestingDepth, own, TallyAll(body));
    }

    /** `visit_expr_macro`: the macro's path, joined with `::`. */
    method VisitMacro(path: seq<string>)
      requires Valid()
      modifies this
      ensures Valid() && nestingDepth == old(nestingDepth) && lineCount == old(lineCount)
      ensures details == Absorb(old(details), old(nestingDepth), Tally(MacroExpr(path)))
    {
      details := details.(macroInvocations := details.macroInvocations + [Join(path, "::")]);
    }

    /** `visit_item_fn`: one more function item and its generic
        parameters, then its body at the same depth. */
    method VisitItemFn(f: Function)
      requires Valid()
      modifies this
      ensures Valid() && nestingDepth == old(nestingDepth) && lineCount == old(lineCount)
      ensures details == Absorb(old(details), old(nestingDepth), Tally(FnItem(f)))
      decreases FnItem(f), 2
    {
      var own := Zero.(nestedFunctions := 1, genericParameters := f.generics);
      details := details.(nestedFunctions := details.nestedFunctions + 1,
                          genericParameters := details.genericParameters + f.generics);
      assert details == Absorb(old(details), nestingDepth, own);
      VisitAll(f.body);
      AbsorbCombine(old(details), nestingDepth, own, TallyAll(f.body));
    }

    /** Children visited one level deeper, bracketed by entering and
        leaving a nesting level. */
    method VisitNested(body: seq<Expr>)
      requires Valid()
      modifies this
      ensures Valid() && nestingDepth == old(nestingDepth) && lineCount == old(lineCount)
      ensures details == Absorb(old(details), old(nestingDepth), Nest(TallyAll(body)))
      decreases body, 1
    {
      EnterNesting();
      VisitAll(body);
      ExitNesting();
    }

    method VisitAll(es: seq<Expr>)
      requires Valid()
      modifies this
      ensures Valid() && nestingDepth == old(nestingDepth) && lineCount == old(lineCount)
      ensures details == Absorb(old(details), old(nestingDepth), TallyAll(es))
      decreases es, 0
    {
      AbsorbZero(details, nestingDepth);
      for i := 0 to |es|
        invariant Valid() && nestingDepth == old(nestingDepth) && lineCount == old(lineCount)
        invariant details == Absorb(old(details), nestingDepth, TallyAll(es[..i]))
      {
        Visit(es[i]);
        assert es[..i + 1][..i] == es[..i];
        AbsorbCombine(old(details), nestingDepth, TallyAll(es[..i]), Tally(es[i]));
      }
      assert es[..|es|] == es;
    }
  }

  // ---------------------------------------------------------------------
  // Scores

  /** `calculate_cyclomatic_complexity`. */
  function Cyclomatic(d: Details): (r: nat)
    ensures r >= 1
  {
    1 + d.ifStatements + d.matchArms + d.loops
  }

  /** `calculate_cognitive_complexity`. */
  function Cognitive(d: Details): nat {
    d.ifStatements + d.loops + d.matchArms + d.maxNestingDepth * 2 + d.unsafeBlocks * 3
  }

  /** The cognitive score is the cyclomatic score less one, plus a penalty
      of two per nesting level and three per unsafe block. */
  lemma CognitiveFromCyclomatic(d: Details)
    ensures Cognitive(d) == Cyclomatic(d) - 1 + 2 * d.maxNestingDepth + 3 * d.unsafeBlocks
    ensures Cognitive(d) >= Cyclomatic(d) - 1
  {
  }

  /** `FunctionComplexity`. */
  datatype FunctionComplexity = FunctionComplexity(
    name: string, cyclomaticComplexity: nat, cognitiveComplexity: nat,
    lineCount: nat, parameterCount: nat, returnComplexity: Rating, details: Details)

  /** The details a fresh visitor gathers over a function item. */
  function FunctionDetails(f: Function): Details {
    Absorb(Zero, 0, Tally(FnItem(f)))
  }

  /** What `analyze_function` reports. */
  function ComplexityOf(f: Function): FunctionComplexity {
    var d := FunctionDetails(f);
    FunctionComplexity(f.name, Cyclomatic(d), Cognitive(d), 0, f.params, FromScore(Cyclomatic(d)), d)
  }

  /** `analyze_function`. */
  method AnalyzeFunction(f: Function) returns (fc: FunctionComplexity)
    ensures fc == ComplexityOf(f)
  {
    var v := new ComplexityVisitor();
    v.Visit(FnItem(f));
    var cyclomatic := Cyclomatic(v.details);
    var cognitive := Cognitive(v.details);
    fc := FunctionComplexity(f.name, cyclomatic, cognitive, v.lineCount, f.params,
                             FromScore(cyclomatic), v.details);
  }

  /** A function's report: the rating is that of its cyclomatic score, which
      is one more than its decision points; the function itself counts as
      one function item; the line count stays zero. */
  lemma ComplexityOfFacts(f: Function)
    ensures var fc := ComplexityOf(f);
      fc.returnComplexity == FromScore(fc.cyclomaticComplexity) &&
      fc.cyclomaticComplexity == 1 + fc.details.ifStatements + fc.details.matchArms + fc.details.loops &&
      fc.details.nestedFunctions >= 1 && fc.details.genericParameters >= f.generics &&
      fc.lineCount == 0 && fc.name == f.name && fc.parameterCount == f.params
  {
  }

  /** The `Display` text of a report: the name first, the rating last. */
  function Describe(fc: FunctionComplexity): string {
    ("Function: " + fc.name) +
    ("\n  Cyclomatic Complexity: " + NatToString(fc.cyclomaticComplexity) +
     "\n  Cognitive Complexity: " + NatToString(fc.cognitiveComplexity) +
     "\n  Lines: " + NatToString(fc.lineCount) +
     "\n  Parameters: " + NatToString(fc.parameterCount) +
     "\n  Rating: ") +
    RatingText(fc.returnComplexity)
  }

  /** The text opens with the function's name and closes with the text of
      its rating. */
  lemma DescribeFrame(fc: FunctionComplexity)
    ensures StartsWith(Describe(fc), "Function: " + fc.name)
    ensures EndsWith(Describe(fc), RatingText(fc.returnComplexity))
  {
    var mid := "\n  Cyclomatic Complexity: " + NatToString(fc.cyclomaticComplexity) +
     "\n  Cognitive Complexity: " + NatToString(fc.cognitiveComplexity) +
     "\n  Lines: " + NatToString(fc.lineCount) +
     "\n  Parameters: " + NatToString(fc.parameterCount) +
     "\n  Rating: ";
    ConcatEnds("Function: " + fc.name, mid, RatingText(fc.returnComplexity));
  }

  /** The function's details are exactly its body's contribution, apart
      from the function item itself. */
  lemma FunctionDetailsOfBody(f: Function)
    ensures FunctionDetails(f) == Combine(Zero.(nestedFunctions := 1, genericParameters := f.generics),
                                          TallyAll(f.body))
  {
    var t := Tally(FnItem(f));
    assert Zero.functionCallChain + t.functionCallChain == t.functionCallChain;
    assert Zero.macroInvocations + t.macroInvocations == t.macroInvocations;
    assert Zero.moduleDependencies + t.moduleDependencies == t.moduleDependencies;
  }

  /** A body of plain code, without branches or loops, rates Low. */
  lemma StraightLineIsLow(f: Function)
    requires forall i :: 0 <= i < |f.body| ==> f.body[i].OtherExpr? && f.body[i].body == []
    ensures ComplexityOf(f).cyclomaticComplexity == 1
    ensures ComplexityOf(f).returnComplexity == Low
  {
    StraightLineTally(f.body);
    FunctionDetailsOfBody(f);
  }

  lemma {:induction false} StraightLineTally(es: seq<Expr>)
    requires forall i :: 0 <= i < |es| ==> es[i].OtherExpr? && es[i].body == []
    ensures TallyAll(es).ifStatements == 0 && TallyAll(es).matchArms == 0 && TallyAll(es).loops == 0
  {
    if es != [] {
      StraightLineTally(es[..|es| - 1]);
      assert Tally(es[|es| - 1]) == TallyAll([]);
    }
  }

  /** A lone match with `n` arms scores `1 + n` and sits one level deep. */
  lemma MatchScoresArms(name: string, params: nat, n: nat)
    ensures var fc := ComplexityOf(Function(name, params, 0, [MatchExpr(n, [])]));
      fc.cyclomaticComplexity == 1 + n && fc.details.maxNestingDepth == 1 &&
      fc.cognitiveComplexity == n + 2
  {
    var f := Function(name, params, 0, [MatchExpr(n, [])]);
    FunctionDetailsOfBody(f);
    assert [MatchExpr(n, [])][..0] == [];
  }

  /** A body of one expression contributes that expression's tally. */
  lemma TallySingle(e: Expr)
    ensures TallyAll([e]) == Tally(e)
  {
    assert [e][..0] == [];
    var t := Tally(e);
    assert [] + t.functionCallChain == t.functionCallChain;
    assert [] + t.macroInvocations == t.macroInvocations;
    assert [] + t.moduleDependencies == t.moduleDependencies;
  }

  /** An `if` inside an `if` nests two levels deep. */
  lemma NestedIfDepth(f: Function)
    requires f.body == [IfExpr([IfExpr([])])]
    ensures FunctionDetails(f).maxNestingDepth == 2
    ensures ComplexityOf(f).cyclomaticComplexity == 3
    ensures ComplexityOf(f).cognitiveComplexity == 6
  {
    NestedIfTally(f.body);
    FunctionDetailsOfBody(f);
    var d := FunctionDetails(f);
    assert d.ifStatements == 2 && d.matchArms == 0 && d.loops == 0;
    assert d.maxNestingDepth == 2 && d.unsafeBlocks == 0;
  }

  lemma NestedIfTally(body: seq<Expr>)
    requires body == [IfExpr([IfExpr([])])]
    ensures TallyAll(body) == Zero.(ifStatements := 2, maxNestingDepth := 2)
  {
    var outer := body[0];
    var inner := outer.body[0];
    assert TallyAll(inner.body) == Zero;
    var ti := Tally(inner);
    assert ti == Zero.(ifStatements := 1, maxNestingDepth := 1);
    IfAroundOne(outer, inner);
    TallySingle(outer);
    assert body == [outer];
  }

  /** An `if` around a single expression: one level deeper, one more `if`. */
  lemma IfAroundOne(e: Expr, inner: Expr)
    requires e == IfExpr([inner])
    ensures Tally(e) == Nest(Tally(inner)).(ifStatements := Tally(inner).ifStatements + 1)
  {
    TallySingle(inner);
    assert e.body == [inner];
  }

  // ---------------------------------------------------------------------
  // The function collector

  /** Items of a file: a function, an impl block's methods, an inline
      `mod` with its own items, or anything else. */
  datatype Item = FnDecl(f: Function) | ImplBlock(methods: seq<Function>) | ModBlock(items: seq<Item>) | OtherItem

  /** The reports for the functions nested anywhere inside an expression,
      in visiting order. */
  function NestedIn(e: Expr): seq<FunctionComplexity>
    decreases e
  {
    match e
    case FnItem(f) => [ComplexityOf(f)] + NestedInAll(f.body)
    case MacroExpr(_) => []
    case UseItem(_) => []
    case _ => NestedInAll(e.body)
  }

  function NestedInAll(es: seq<Expr>): seq<FunctionComplexity>
    decreases es
  {
    if es == [] then [] else NestedInAll(es[..|es| - 1]) + NestedIn(es[|es| - 1])
  }

  /** A function's own report first, then those of the functions inside it. */
  function FunctionReports(f: Function): seq<FunctionComplexity> {
    NestedIn(FnItem(f))
  }

  function MethodReports(ms: seq<Function>): seq<FunctionComplexity> {
    if ms == [] then [] else MethodReports(ms[..|ms| - 1]) + FunctionReports(ms[|ms| - 1])
  }

  function ItemReport(item: Item): seq<FunctionComplexity>
    decreases item
  {
    match item
    case FnDecl(f) => FunctionReports(f)
    case ImplBlock(ms) => MethodReports(ms)
    case ModBlock(items) => ItemReports(items)
    case OtherItem => []
  }

  function ItemReports(items: seq<Item>): seq<FunctionComplexity>
    decreases items
  {
    if items == [] then [] else ItemReports(items[..|items| - 1]) + ItemReport(items[|items| - 1])
  }

  /** `FunctionVisitor`: the reports collected so far. */
  class FunctionCollector {
    var functions: seq<FunctionComplexity>

    constructor()
      ensures functions == []
    {
      functions := [];
    }

    /** `visit_item_fn` and `visit_impl_item_fn`: the function's report,
        then the visit goes on into its body. */
    method VisitFunction(f: Function)
      modifies this
      ensures functions == old(functions) + FunctionReports(f)
      decreases FnItem(f), 0
    {
      var fc := AnalyzeFunction(f);
      functions := functions + [fc];
      VisitAll(f.body);
      assert old(functions) + [fc] + NestedInAll(f.body) == old(functions) + ([fc] + NestedInAll(f.body));
    }

    method Visit(e: Expr)
      modifies this
      ensures functions == old(functions) + NestedIn(e)
      decreases e, 2
    {
      match e {
        case FnItem(f) =>
          VisitFunction(f);
        case MacroExpr(_) =>
          assert old(functions) + [] == old(functions);
        case UseItem(_) =>
          assert old(functions) + [] == old(functions);
        case _ =>
          VisitAll(e.body);
      }
    }

    method VisitAll(es: seq<Expr>)
      modifies this
      ensures functions == old(functions) + NestedInAll(es)
      decreases es, 1
    {
      assert functions + [] == functions;
      for i := 0 to |es|
        invariant functions == old(functions) + NestedInAll(es[..i])
      {
        Visit(es[i]);
        assert es[..i + 1][..i] == es[..i];
      }
      assert es[..|es|] == es;
    }

    /** The methods of an impl block, in order. */
    method VisitImpl(ms: seq<Function>)
      modifies this
      ensures functions == old(functions) + MethodReports(ms)
    {
      assert functions + [] == functions;
      for j := 0 to |ms|
        invariant functions == old(functions) + MethodReports(ms[..j])
      {
        VisitFunction(ms[j]);
        assert ms[..j + 1][..j] == ms[..j];
      }
      assert ms[..|ms|] == ms;
    }

    /** One item: a function, the methods of an impl block, or the items
        of an inline module. */
    method VisitItem(item: Item)
      modifies this
      ensures functions == old(functions) + ItemReport(item)
      decreases item, 1
    {
      match item {
        case FnDecl(f) => VisitFunction(f);
        case ImplBlock(ms) => VisitImpl(ms);
        case ModBlock(items) => VisitItems(items);
        case OtherItem => assert functions + [] == functions;
      }
    }

    /** `analyze_file` after parsing: every item of the file visited in
        order. */
    method VisitItems(items: seq<Item>)
      modifies this
      ensures functions == old(functions) + ItemReports(items)
      decreases items, 0
    {
      assert functions + [] == functions;
      for i := 0 to |items|
        invariant functions == old(functions) + ItemReports(items[..i])
      {
        VisitItem(items[i]);
        assert items[..i + 1][..i] == items[..i];
      }
      assert items[..|items|] == items;
    }
  }

  /** The reports of a file are those of its items, in order. */
  lemma {:induction false} ItemReportsConcat(items: seq<Item>)
    ensures ItemReports(items) == ConcatMap(items, ItemReport)
    decreases |items|
  {
    if items != [] {
      ItemReportsConcat(items[..|items| - 1]);
    }
  }

  /** An item's reports come before those of the items after it. */
  lemma ItemReportsCons(item: Item, rest: seq<Item>)
    ensures ItemReports([item] + rest) == ItemReport(item) + ItemReports(rest)
  {
    ItemReportsConcat([item] + rest);
    ItemReportsConcat([item]);
    ItemReportsConcat(rest);
    ConcatMapAppend([item], rest, ItemReport);
  }

  /** A file that opens with a function reports that function first, then
      the functions nested in its body, then the rest of the file. */
  lemma TopLevelReported(f: Function, rest: seq<Item>)
    ensures ItemReports([FnDecl(f)] + rest) == [ComplexityOf(f)] + NestedInAll(f.body) + ItemReports(rest)
    ensures ItemReports([FnDecl(f)] + rest)[0] == ComplexityOf(f)
  {
    ItemReportsCons(FnDecl(f), rest);
  }

  /** The functions of an inline module are reported where the module
      stands, before the items after it. */
  lemma ModuleReported(items: seq<Item>, rest: seq<Item>)
    ensures ItemReports([ModBlock(items)] + rest) == ItemReports(items) + ItemReports(rest)
  {
    ItemReportsCons(ModBlock(items), rest);
  }

  /** A file of top-level functions has at least one report per function. */
  lemma {:induction false} TopLevelCount(fs: seq<Function>)
    ensures |ItemReports(seq(|fs|, i requires 0 <= i < |fs| => FnDecl(fs[i])))| >= |fs|
  {
    if fs != [] {
      var items := seq(|fs|, i requires 0 <= i < |fs| => FnDecl(fs[i]));
      var init := fs[..|fs| - 1];
      TopLevelCount(init);
      assert items[..|items| - 1] == seq(|init|, i requires 0 <= i < |init| => FnDecl(init[i]));
      assert items[|items| - 1] == FnDecl(fs[|fs| - 1]);
    }
  }
}
