// The performance analyzer: of the functions a file's complexity analysis
// reports, those at or above a cyclomatic threshold are examined; each gets
// a bounded performance-impact score, a list of profiling focus areas and a
// list of optimisation suggestions, and the whole set gets a short list of
// quick wins.

module Performance {
  import opened Common
  import opened Complexity
  import opened Thresholds

  // ---------------------------------------------------------------------
  // The impact score

  /** The weight of each measure in the impact score. */
  const ImpactWeights: seq<(Measure, nat)> :=
    [(CyclomaticScore, 5), (CognitiveScore, 3), (Loops, 15), (NestingDepth, 8),
     (Calls, 2), (UnsafeBlocks, 10), (Parameters, 3)]

  function Weighted(ws: seq<(Measure, nat)>, fc: FunctionComplexity): nat
    decreases |ws|
  {
    if ws == [] then 0
    else Weighted(ws[..|ws| - 1], fc) + MeasureOf(fc, ws[|ws| - 1].0) * ws[|ws| - 1].1
  }

  /** The impact score: the weighted sum, capped at 100. */
  function Impact(fc: FunctionComplexity): (score: nat)
    ensures score <= 100
  {
    var w := Weighted(ImpactWeights, fc);
    if w < 100 then w else 100
  }

  /** The score as the analyzer accumulates it, one measure at a time. */
  method CalculateImpact(fc: FunctionComplexity) returns (score: nat)
    ensures score == Impact(fc)
  {
    score := 0;
    score := score + fc.cyclomaticComplexity * 5;
    score := score + fc.cognitiveComplexity * 3;
    score := score + fc.details.loops * 15;
    score := score + fc.details.maxNestingDepth * 8;
    score := score + fc.details.functionCalls * 2;
    score := score + fc.details.unsafeBlocks * 10;
    score := score + fc.parameterCount * 3;
    ImpactFormula(fc);
    if score > 100 {
      score := 100;
    }
  }

  /** The score in closed form. */
  lemma ImpactFormula(fc: FunctionComplexity)
    ensures Impact(fc) == Min(100,
      5 * fc.cyclomaticComplexity + 3 * fc.cognitiveComplexity + 15 * fc.details.loops +
      8 * fc.details.maxNestingDepth + 2 * fc.details.functionCalls +
      10 * fc.details.unsafeBlocks + 3 * fc.parameterCount)
  {
    var ws, d := ImpactWeights, fc.details;
    ImpactHead(fc);
    WeightedStep(ws, 3, NestingDepth, 8, fc);
    WeightedStep(ws, 4, Calls, 2, fc);
    WeightedStep(ws, 5, UnsafeBlocks, 10, fc);
    WeightedStep(ws, 6, Parameters, 3, fc);
    assert ws[..7] == ws;
  }

  /** The first three terms of the weighted sum. */
  lemma ImpactHead(fc: FunctionComplexity)
    ensures Weighted(ImpactWeights[..3], fc) ==
      5 * fc.cyclomaticComplexity + 3 * fc.cognitiveComplexity + 15 * fc.details.loops
  {
    var ws := ImpactWeights;
    WeightedStep(ws, 0, CyclomaticScore, 5, fc);
    WeightedStep(ws, 1, CognitiveScore, 3, fc);
    WeightedStep(ws, 2, Loops, 15, fc);
  }

  lemma WeightedStep(ws: seq<(Measure, nat)>, k: nat, m: Measure, w: nat, fc: FunctionComplexity)
    requires k < |ws| && ws[k] == (m, w)
    ensures Weighted(ws[..k + 1], fc) == Weighted(ws[..k], fc) + MeasureOf(fc, m) * w
  {
    assert ws[..k + 1][..k] == ws[..k];
  }

  /** Pointwise at most: no measure of `a` exceeds that of `b`. */
  predicate Below(a: FunctionComplexity, b: FunctionComplexity) {
    forall m: Measure :: MeasureOf(a, m) <= MeasureOf(b, m)
  }

  lemma {:induction false} WeightedMonotone(ws: seq<(Measure, nat)>, a: FunctionComplexity, b: FunctionComplexity)
    requires Below(a, b)
    ensures Weighted(ws, a) <= Weighted(ws, b)
    decreases |ws|
  {
    if ws != [] {
      var m, k := ws[|ws| - 1].0, ws[|ws| - 1].1;
      WeightedMonotone(ws[..|ws| - 1], a, b);
      assert MeasureOf(a, m) <= MeasureOf(b, m);
      MultiplyMonotone(MeasureOf(a, m), MeasureOf(b, m), k);
    }
  }

  lemma MultiplyMonotone(x: nat, y: nat, k: nat)
    requires x <= y
    ensures x * k <= y * k
  {
    var d := y - x;
    assert y * k == x * k + d * k;
  }

  /** Raising any measure never lowers the score. */
  lemma ImpactMonotone(a: FunctionComplexity, b: FunctionComplexity)
    requires Below(a, b)
    ensures Impact(a) <= Impact(b)
  {
    WeightedMonotone(ImpactWeights, a, b);
  }

  // ---------------------------------------------------------------------
  // Profiling focus

  const FocusRules: seq<Rule> :=
    [Rule(Loops, 0, "Loop optimization"), Rule(Calls, 10, "Call overhead"),
     Rule(UnsafeBlocks, 0, "Memory access patterns"), Rule(NestingDepth, 4, "Branch prediction")]

  const GeneralProfiling: string := "General performance profiling"

  /** The focus line: the areas joined with commas, or the general advice
      when there is none. */
  function FocusText(areas: seq<string>): string {
    if areas == [] then GeneralProfiling else Join(areas, ", ")
  }

  method ProfilingFocus(fc: FunctionComplexity) returns (text: string)
    ensures text == FocusText(Fired(FocusRules, fc))
  {
    var rs := FocusRules;
    var focus: seq<string> := [];
    if fc.details.loops > 0 {
      focus := focus + ["Loop optimization"];
    }
    assert focus == Report(rs[0], fc);
    if fc.details.functionCalls > 10 {
      focus := focus + ["Call overhead"];
    }
    assert focus == Report(rs[0], fc) + Report(rs[1], fc);
    if fc.details.unsafeBlocks > 0 {
      focus := focus + ["Memory access patterns"];
    }
    assert focus == Report(rs[0], fc) + Report(rs[1], fc) + Report(rs[2], fc);
    if fc.details.maxNestingDepth > 4 {
      focus := focus + ["Branch prediction"];
    }
    FiredOfFour(rs[0], rs[1], rs[2], rs[3], fc);
    assert rs == [rs[0], rs[1], rs[2], rs[3]];
    assert focus == Fired(FocusRules, fc);
    if focus == [] {
      text := GeneralProfiling;
    } else {
      text := Join(focus, ", ");
    }
  }

  /** Each area is named exactly when its condition holds. */
  lemma FocusAreaNamed(fc: FunctionComplexity, i: nat)
    requires i < |FocusRules|
    ensures FocusRules[i].text in Fired(FocusRules, fc) <==> Fires(FocusRules[i], fc)
  {
    FiredIff(FocusRules, fc, i);
  }

  /** The general advice is given exactly when no area applies. */
  lemma FocusGeneral(fc: FunctionComplexity)
    ensures FocusText(Fired(FocusRules, fc)) == GeneralProfiling <==>
      fc.details.loops == 0 && fc.details.functionCalls <= 10 &&
      fc.details.unsafeBlocks == 0 && fc.details.maxNestingDepth <= 4
  {
    var rs := FocusRules;
    FiredOfFour(rs[0], rs[1], rs[2], rs[3], fc);
    assert rs == [rs[0], rs[1], rs[2], rs[3]];
    var areas := Fired(rs, fc);
    if areas != [] {
      FiredFrom(rs, fc, areas[0]);
      var j :| 0 <= j < |rs| && rs[j].text == areas[0] && Fires(rs[j], fc);
      assert j == 0 || j == 1 || j == 2 || j == 3;
      assert areas[0] != [] && areas[0][0] != 'G';
      JoinHead(areas, ", ");
      assert GeneralProfiling[0] == 'G';
    }
  }

  /** A join starts with the first part. */
  lemma JoinHead(parts: seq<string>, sep: string)
    requires parts != [] && parts[0] != []
    ensures Join(parts, sep) != [] && Join(parts, sep)[0] == parts[0][0]
  {
  }

  // ---------------------------------------------------------------------
  // Optimisation suggestions

  const SuggestionRules: seq<Rule> :=
    [Rule(Loops, 2, "Consider vectorization or parallel processing for multiple loops"),
     Rule(NestingDepth, 4, "Refactor to reduce nesting - use early returns or helper functions"),
     Rule(Calls, 15, "High function call overhead - consider inlining hot path functions"),
     Rule(Parameters, 5, "Too many parameters - consider using structs to reduce stack pressure"),
     Rule(CyclomaticScore, 15, "Very high complexity - split into smaller, focused functions")]

  method OptimizationSuggestions(fc: FunctionComplexity) returns (suggestions: seq<string>)
    ensures suggestions == Fired(SuggestionRules, fc)
  {
    var rs := SuggestionRules;
    suggestions := [];
    if fc.details.loops > 2 {
      suggestions := suggestions + ["Consider vectorization or parallel processing for multiple loops"];
    }
    assert suggestions == Report(rs[0], fc);
    if fc.details.maxNestingDepth > 4 {
      suggestions := suggestions + ["Refactor to reduce nesting - use early returns or helper functions"];
    }
    assert suggestions == Report(rs[0], fc) + Report(rs[1], fc);
    if fc.details.functionCalls > 15 {
      suggestions := suggestions + ["High function call overhead - consider inlining hot path functions"];
    }
    assert suggestions == Report(rs[0], fc) + Report(rs[1], fc) + Report(rs[2], fc);
    if fc.parameterCount > 5 {
      suggestions := suggestions + ["Too many parameters - consider using structs to reduce stack pressure"];
    }
    assert suggestions == Report(rs[0], fc) + Report(rs[1], fc) + Report(rs[2], fc) + Report(rs[3], fc);
    if fc.cyclomaticComplexity > 15 {
      suggestions := suggestions + ["Very high complexity - split into smaller, focused functions"];
    }
    FiredOfFive(rs[0], rs[1], rs[2], rs[3], rs[4], fc);
    assert rs == [rs[0], rs[1], rs[2], rs[3], rs[4]];
  }

  /** Each suggestion is made exactly when its condition holds. */
  lemma SuggestionMade(fc: FunctionComplexity, i: nat)
    requires i < |SuggestionRules|
    ensures SuggestionRules[i].text in Fired(SuggestionRules, fc) <==> Fires(SuggestionRules[i], fc)
  {
    FiredIff(SuggestionRules, fc, i);
  }

  // ---------------------------------------------------------------------
  // Quick wins

  const QuickWinRules: seq<Rule> :=
    [Rule(Parameters, 5, "Reduce parameter count"),
     Rule(NestingDepth, 4, "Reduce nesting with early returns")]

  function Win(name: string, advice: string): string {
    name + ": " + advice
  }

  /** The quick wins one function contributes. */
  function WinsFor(fc: FunctionComplexity): (r: seq<string>)
    ensures |r| == |Fired(QuickWinRules, fc)|
  {
    var fired := Fired(QuickWinRules, fc);
    seq(|fired|, i requires 0 <= i < |fired| => Win(fc.name, fired[i]))
  }

  function AllWins(functions: seq<FunctionComplexity>): seq<string> {
    ConcatMap(functions, WinsFor)
  }

  /** The wins listed: at most the first five. */
  function ShownWins(functions: seq<FunctionComplexity>): (r: seq<string>)
    ensures |r| == Min(5, |AllWins(functions)|)
  {
    var all := AllWins(functions);
    if |all| <= 5 then all else all[..5]
  }

  method QuickWins(functions: seq<FunctionComplexity>) returns (shown: seq<string>)
    ensures shown == ShownWins(functions)
  {
    var wins: seq<string> := [];
    for i := 0 to |functions|
      invariant wins == AllWins(functions[..i])
    {
      var fc := functions[i];
      var before := wins;
      if fc.parameterCount > 5 {
        wins := wins + [Win(fc.name, "Reduce parameter count")];
      }
      if fc.details.maxNestingDepth > 4 {
        wins := wins + [Win(fc.name, "Reduce nesting with early returns")];
      }
      WinsForUnfold(fc);
      assert wins == before + WinsFor(fc);
      ConcatMapStep(functions, WinsFor, i);
    }
    assert functions[..|functions|] == functions;
    if |wins| <= 5 {
      shown := wins;
    } else {
      shown := wins[..5];
    }
  }

  lemma WinsForUnfold(fc: FunctionComplexity)
    ensures WinsFor(fc) ==
      (if fc.parameterCount > 5 then [Win(fc.name, "Reduce parameter count")] else []) +
      (if fc.details.maxNestingDepth > 4 then [Win(fc.name, "Reduce nesting with early returns")] else [])
  {
    var rs := QuickWinRules;
    FiredOfTwo(rs[0], rs[1], fc);
    assert rs == [rs[0], rs[1]];
  }

  /** One win for too many parameters, one for too deep a nesting. */
  lemma WinsForLength(fc: FunctionComplexity)
    ensures |WinsFor(fc)| == (if ManyParameters(fc) then 1 else 0) + (if DeeplyNested(fc) then 1 else 0)
  {
    var rs := QuickWinRules;
    FiredOfTwo(rs[0], rs[1], fc);
    assert rs == [rs[0], rs[1]];
  }

  predicate ManyParameters(fc: FunctionComplexity) { fc.parameterCount > 5 }
  predicate DeeplyNested(fc: FunctionComplexity) { fc.details.maxNestingDepth > 4 }

  /** Before the cut to five, there is one win per function with too many
      parameters and one per function nested too deeply. */
  lemma {:induction false} AllWinsCount(functions: seq<FunctionComplexity>)
    ensures |AllWins(functions)| ==
      Count(functions, ManyParameters) + Count(functions, DeeplyNested)
    decreases |functions|
  {
    if functions != [] {
      var init, fc := functions[..|functions| - 1], functions[|functions| - 1];
      AllWinsCount(init);
      WinsCountStep(functions);
    }
  }

  lemma WinsCountStep(xs: seq<FunctionComplexity>)
    requires xs != []
    requires |AllWins(xs[..|xs| - 1])| ==
      Count(xs[..|xs| - 1], ManyParameters) + Count(xs[..|xs| - 1], DeeplyNested)
    ensures |AllWins(xs)| == Count(xs, ManyParameters) + Count(xs, DeeplyNested)
  {
    var init, fc := xs[..|xs| - 1], xs[|xs| - 1];
    assert |AllWins(xs)| == |AllWins(init)| + |WinsFor(fc)|;
    WinsForLength(fc);
    CountDropLast(xs, ManyParameters);
    CountDropLast(xs, DeeplyNested);
  }

  /** Every listed win names a function of the examined set that has too
      many parameters or is nested too deeply. */
  lemma WinNamesCulprit(functions: seq<FunctionComplexity>, w: string)
    requires w in AllWins(functions)
    ensures exists fc :: (fc in functions &&
      ((ManyParameters(fc) && w == Win(fc.name, "Reduce parameter count")) ||
       (DeeplyNested(fc) && w == Win(fc.name, "Reduce nesting with early returns"))))
  {
    ConcatMapMember(functions, WinsFor, w);
    var fc :| fc in functions && w in WinsFor(fc);
    WinsForUnfold(fc);
  }

  lemma {:induction false} ConcatMapMember<T, U>(xs: seq<T>, f: T -> seq<U>, u: U)
    requires u in ConcatMap(xs, f)
    ensures exists x :: x in xs && u in f(x)
    decreases |xs|
  {
    var init, last := xs[..|xs| - 1], xs[|xs| - 1];
    if u in ConcatMap(init, f) {
      ConcatMapMember(init, f, u);
      var x :| x in init && u in f(x);
      assert x in xs;
    } else {
      assert u in f(last);
    }
  }
}
