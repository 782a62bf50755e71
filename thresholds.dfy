// Threshold rules, shared by the performance analyzer and the code
// generator: each advice text is attached to one measure of a function's
// complexity report and a bound, and is given when the measure exceeds the
// bound. A report lists the texts of the rules that fire, in the order the
// rules are written.

module Thresholds {
  import opened Common
  import opened Complexity

  datatype Measure =
    | CyclomaticScore | CognitiveScore | Loops | NestingDepth | Calls
    | UnsafeBlocks | Parameters

  function MeasureOf(fc: FunctionComplexity, m: Measure): nat {
    match m
    case CyclomaticScore => fc.cyclomaticComplexity
    case CognitiveScore => fc.cognitiveComplexity
    case Loops => fc.details.loops
    case NestingDepth => fc.details.maxNestingDepth
    case Calls => fc.details.functionCalls
    case UnsafeBlocks => fc.details.unsafeBlocks
    case Parameters => fc.parameterCount
  }

  datatype Rule = Rule(measure: Measure, bound: nat, text: string)

  predicate Fires(r: Rule, fc: FunctionComplexity) {
    MeasureOf(fc, r.measure) > r.bound
  }

  /** What one rule contributes to a report: its text if it fires. */
  function Report(r: Rule, fc: FunctionComplexity): seq<string> {
    if Fires(r, fc) then [r.text] else []
  }

  /** The texts of the rules that fire for `fc`, in rule order. */
  function Fired(rules: seq<Rule>, fc: FunctionComplexity): (r: seq<string>)
    ensures |r| <= |rules|
    decreases |rules|
  {
    if rules == [] then []
    else Fired(rules[..|rules| - 1], fc) + Report(rules[|rules| - 1], fc)
  }

  // The report of a table written out rule by rule.

  lemma FiredOfTwo(a: Rule, b: Rule, fc: FunctionComplexity)
    ensures Fired([a, b], fc) == Report(a, fc) + Report(b, fc)
  {
    var none: seq<Rule> := [];
    assert [a, b][..1] == [a] && [a][..0] == none;
  }

  lemma FiredOfFour(a: Rule, b: Rule, c: Rule, d: Rule, fc: FunctionComplexity)
    ensures Fired([a, b, c, d], fc) == Report(a, fc) + Report(b, fc) + Report(c, fc) + Report(d, fc)
  {
    FiredOfTwo(a, b, fc);
    assert [a, b, c, d][..3] == [a, b, c] && [a, b, c][..2] == [a, b];
  }

  lemma FiredOfFive(a: Rule, b: Rule, c: Rule, d: Rule, e: Rule, fc: FunctionComplexity)
    ensures Fired([a, b, c, d, e], fc) ==
      Report(a, fc) + Report(b, fc) + Report(c, fc) + Report(d, fc) + Report(e, fc)
  {
    FiredOfFour(a, b, c, d, fc);
    assert [a, b, c, d, e][..4] == [a, b, c, d];
  }

  predicate DistinctTexts(rules: seq<Rule>) {
    forall i, j :: 0 <= i < j < |rules| ==> rules[i].text != rules[j].text
  }

  /** The rules of a longer table report after those of a shorter one: the
      report of a concatenation is the concatenation of the reports. */
  lemma {:induction false} FiredAppend(a: seq<Rule>, b: seq<Rule>, fc: FunctionComplexity)
    ensures Fired(a + b, fc) == Fired(a, fc) + Fired(b, fc)
    decreases |b|
  {
    if b == [] {
      assert a + b == a;
    } else {
      var init, last := b[..|b| - 1], b[|b| - 1];
      FiredAppend(a, init, fc);
      assert b == init + [last];
      assert a + b == (a + init) + [last];
      FiredSnoc(a + init, last, fc);
      FiredSnoc(init, last, fc);
      AppendAssoc(Fired(a, fc), Fired(init, fc), Report(last, fc));
    }
  }

  lemma FiredSnoc(rules: seq<Rule>, r: Rule, fc: FunctionComplexity)
    ensures Fired(rules + [r], fc) == Fired(rules, fc) + Report(r, fc)
  {
    assert (rules + [r])[..|rules|] == rules;
  }

  /** Every reported text comes from a rule that fires. */
  lemma {:induction false} FiredFrom(rules: seq<Rule>, fc: FunctionComplexity, t: string)
    requires t in Fired(rules, fc)
    ensures exists i :: 0 <= i < |rules| && rules[i].text == t && Fires(rules[i], fc)
    decreases |rules|
  {
    var init, last := rules[..|rules| - 1], rules[|rules| - 1];
    if t in Fired(init, fc) {
      FiredFrom(init, fc, t);
      var i :| 0 <= i < |init| && init[i].text == t && Fires(init[i], fc);
      assert rules[i] == init[i];
    } else {
      assert rules[|rules| - 1].text == t && Fires(last, fc);
    }
  }

  /** With distinct texts, a rule's text is reported exactly when the rule
      fires. */
  lemma {:induction false} FiredIff(rules: seq<Rule>, fc: FunctionComplexity, i: nat)
    requires DistinctTexts(rules) && i < |rules|
    ensures rules[i].text in Fired(rules, fc) <==> Fires(rules[i], fc)
    decreases |rules|
  {
    var init, last := rules[..|rules| - 1], rules[|rules| - 1];
    if i < |init| {
      assert init[i] == rules[i];
      FiredIff(init, fc, i);
      assert rules[i].text != last.text;
    } else if rules[i].text in Fired(init, fc) {
      FiredFrom(init, fc, rules[i].text);
    }
  }

  /** Nothing is reported exactly when no rule fires. */
  lemma {:induction false} FiredEmpty(rules: seq<Rule>, fc: FunctionComplexity)
    ensures Fired(rules, fc) == [] <==> forall i :: 0 <= i < |rules| ==> !Fires(rules[i], fc)
    decreases |rules|
  {
    if rules != [] {
      var init := rules[..|rules| - 1];
      FiredEmpty(init, fc);
      assert forall i :: 0 <= i < |init| ==> init[i] == rules[i];
    }
  }

  // ---------------------------------------------------------------------
  // The complexity threshold

  function AtLeast(threshold: nat): FunctionComplexity -> bool {
    (fc: FunctionComplexity) => fc.cyclomaticComplexity >= threshold
  }

  /** The functions whose cyclomatic complexity reaches the threshold, in
      the order they were reported. */
  function AtOrAbove(functions: seq<FunctionComplexity>, threshold: nat): seq<FunctionComplexity> {
    Filter(functions, AtLeast(threshold))
  }

  /** A function is kept exactly when it is reported and reaches the
      threshold, and a threshold of 0 keeps them all. */
  lemma AtOrAboveExactly(functions: seq<FunctionComplexity>, threshold: nat, fc: FunctionComplexity)
    ensures fc in AtOrAbove(functions, threshold) <==>
      fc in functions && fc.cyclomaticComplexity >= threshold
    ensures AtOrAbove(functions, 0) == functions
  {
    FilterAll(functions, AtLeast(0));
  }
}
