// The code generator: from the complexity reports of a file's functions it
// produces one unit-test item and one benchmark item per function, a
// recommendation line for each function's documentation, and the counts
// that head the generated report.

module CodeGenerator {
  import opened Common
  import opened Complexity
  import opened Thresholds
  import ComplexityCli

  // ---------------------------------------------------------------------
  // Recommendations

  const SplitAdvice: string := "Consider breaking this function into smaller functions"
  const NestingAdvice: string := "Reduce nesting depth using early returns or helper functions"
  const UnsafeAdvice: string := "Review unsafe code blocks for safety guarantees"
  const ParameterAdvice: string := "Consider using a struct to group related parameters"
  const CallAdvice: string := "High number of function calls may indicate doing too much"

  const RecommendationRules: seq<Rule> :=
    [Rule(CyclomaticScore, 10, SplitAdvice),
     Rule(NestingDepth, 4, NestingAdvice),
     Rule(UnsafeBlocks, 0, UnsafeAdvice),
     Rule(Parameters, 5, ParameterAdvice),
     Rule(Calls, 10, CallAdvice)]

  const WithinLimits: string := "Function complexity is within acceptable limits"

  /** The recommendation line: the advice joined with "; ", or the
      all-clear when there is none. */
  function RecommendationText(advice: seq<string>): string {
    if advice == [] then WithinLimits else Join(advice, "; ")
  }

  method ComplexityRecommendations(fc: FunctionComplexity) returns (text: string)
    ensures text == RecommendationText(Fired(RecommendationRules, fc))
  {
    var rs := RecommendationRules;
    var recommendations: seq<string> := [];
    if fc.cyclomaticComplexity > 10 {
      recommendations := recommendations + [SplitAdvice];
    }
    assert recommendations == Report(rs[0], fc);
    if fc.details.maxNestingDepth > 4 {
      recommendations := recommendations + [NestingAdvice];
    }
    assert recommendations == Report(rs[0], fc) + Report(rs[1], fc);
    if fc.details.unsafeBlocks > 0 {
      recommendations := recommendations + [UnsafeAdvice];
    }
    assert recommendations == Report(rs[0], fc) + Report(rs[1], fc) + Report(rs[2], fc);
    if fc.parameterCount > 5 {
      recommendations := recommendations + [ParameterAdvice];
    }
    assert recommendations == Report(rs[0], fc) + Report(rs[1], fc) + Report(rs[2], fc) + Report(rs[3], fc);
    if fc.details.functionCalls > 10 {
      recommendations := recommendations + [CallAdvice];
    }
    FiredOfFive(rs[0], rs[1], rs[2], rs[3], rs[4], fc);
    assert rs == [rs[0], rs[1], rs[2], rs[3], rs[4]];
    assert recommendations == Fired(RecommendationRules, fc);
    if recommendations == [] {
      text := WithinLimits;
    } else {
      text := Join(recommendations, "; ");
    }
  }

  /** Each piece of advice is given exactly when its condition holds. */
  lemma RecommendationGiven(fc: FunctionComplexity, i: nat)
    requires i < |RecommendationRules|
    ensures RecommendationRules[i].text in Fired(RecommendationRules, fc) <==>
      Fires(RecommendationRules[i], fc)
  {
    FiredIff(RecommendationRules, fc, i);
  }

  /** The all-clear is given exactly when no condition holds; otherwise
      every piece of advice whose condition holds appears in the line. */
  lemma WithinLimitsExactly(fc: FunctionComplexity, i: nat)
    requires i < |RecommendationRules|
    ensures Fired(RecommendationRules, fc) == [] <==>
      fc.cyclomaticComplexity <= 10 && fc.details.maxNestingDepth <= 4 &&
      fc.details.unsafeBlocks == 0 && fc.parameterCount <= 5 && fc.details.functionCalls <= 10
    ensures Fired(RecommendationRules, fc) == [] ==>
      RecommendationText(Fired(RecommendationRules, fc)) == WithinLimits
    ensures Fires(RecommendationRules[i], fc) ==>
      Contains(RecommendationText(Fired(RecommendationRules, fc)), RecommendationRules[i].text)
  {
    var rs := RecommendationRules;
    FiredOfFive(rs[0], rs[1], rs[2], rs[3], rs[4], fc);
    assert rs == [rs[0], rs[1], rs[2], rs[3], rs[4]];
    var advice := Fired(rs, fc);
    if Fires(rs[i], fc) {
      FiredIff(rs, fc, i);
      var k :| 0 <= k < |advice| && advice[k] == rs[i].text;
      JoinPartOccurs(advice, "; ", k);
    }
  }

  // ---------------------------------------------------------------------
  // The report counts

  /** How many functions are rated High or Very High. */
  function HighComplexityCount(functions: seq<FunctionComplexity>): nat {
    Count(functions, ComplexityCli.IsHigh)
  }

  /** The count is the High functions plus the Very High ones, and never
      more than the total. */
  lemma {:induction false} HighComplexityCountBands(functions: seq<FunctionComplexity>)
    ensures HighComplexityCount(functions) ==
      Count(functions, ComplexityCli.RatedAs(High)) + Count(functions, ComplexityCli.RatedAs(VeryHigh))
    ensures HighComplexityCount(functions) <= |functions|
  {
    if functions != [] {
      HighComplexityCountBands(functions[1..]);
    }
  }

  // ---------------------------------------------------------------------
  // Generated tests and benchmarks

  /** What a generated test does: call the function directly when it takes
      no parameters, else nothing. The notes written as `//` comments inside
      the quoted test are not tokens, so none of them reaches the output. */
  datatype TestBody = DirectCall(callee: string) | EmptyBody

  datatype TestItem = TestItem(name: string, body: TestBody)

  datatype BenchItem = BenchItem(name: string, callee: string)

  function TestName(name: string): string { "test_" + name }

  function BenchName(name: string): string { "bench_" + name }

  method GenerateTests(functions: seq<FunctionComplexity>) returns (tests: seq<TestItem>)
    ensures |tests| == |functions|
    ensures forall i :: 0 <= i < |tests| ==> tests[i].name == TestName(functions[i].name)
    ensures forall i :: 0 <= i < |tests| ==>
      (tests[i].body.DirectCall? <==> functions[i].parameterCount == 0)
    ensures forall i :: 0 <= i < |tests| ==>
      tests[i].body == (if functions[i].parameterCount == 0 then DirectCall(functions[i].name)
                        else EmptyBody)
  {
    tests := [];
    for k := 0 to |functions|
      invariant |tests| == k
      invariant forall i :: 0 <= i < k ==> tests[i].name == TestName(functions[i].name)
      invariant forall i :: 0 <= i < k ==>
        tests[i].body == (if functions[i].parameterCount == 0 then DirectCall(functions[i].name)
                          else EmptyBody)
    {
      var fc := functions[k];
      var body := if fc.parameterCount == 0 then DirectCall(fc.name) else EmptyBody;
      tests := tests + [TestItem(TestName(fc.name), body)];
    }
  }

  method GenerateBenchmarks(functions: seq<FunctionComplexity>) returns (benches: seq<BenchItem>)
    ensures |benches| == |functions|
    ensures forall i :: 0 <= i < |benches| ==>
      benches[i] == BenchItem(BenchName(functions[i].name), functions[i].name)
  {
    benches := [];
    for k := 0 to |functions|
      invariant |benches| == k
      invariant forall i :: 0 <= i < k ==>
        benches[i] == BenchItem(BenchName(functions[i].name), functions[i].name)
    {
      var fc := functions[k];
      benches := benches + [BenchItem(BenchName(fc.name), fc.name)];
    }
  }

  /** Distinct functions get distinct test names and distinct benchmark
      names, the function name can be read back from either, and no test
      is named like a benchmark. */
  lemma GeneratedNames(a: string, b: string)
    ensures TestName(a) == TestName(b) <==> a == b
    ensures BenchName(a) == BenchName(b) <==> a == b
    ensures TestName(a)[5..] == a && BenchName(a)[6..] == a
    ensures TestName(a) != BenchName(b)
  {
    if TestName(a) == TestName(b) {
      assert a == TestName(a)[5..];
    }
    if BenchName(a) == BenchName(b) {
      assert a == BenchName(a)[6..];
    }
    assert TestName(a)[0] == 't' && BenchName(b)[0] == 'b';
  }
}
