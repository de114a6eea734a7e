/**
 The whole latency-target search on a threshold link: which verdict every history
 gets, and how many measurements a closed loop takes from its first to its last.
 */
module SearchEnding {
  import opened Selection
  import opened SearchHistory
  import opened Review
  import opened ReviewTheorems
  import opened Search
  import opened SearchTheorems
  import opened SearchConvergence
  import opened SearchLength

  // ----- the verdict of any history

  /** Half way down from the lowest measured rate to the exploration minimum, or that minimum. */
  ghost function Descent(minimum: nat, lowest: nat): nat
    requires minimum <= lowest
  {
    if Midpoint(minimum, lowest) >= lowest then minimum else Midpoint(minimum, lowest)
  }

  /** Every measurement met the target: the upper bound is confirmed, or measured next. */
  lemma PassingDecision(input: Input, ss: seq<Sample>, threshold: nat)
    requires Ready(input, ss) && TargetSearch(input.profile) && ThresholdLink(ss, threshold)
    requires |ss| < input.maxAttempts && LowerPass(ss).Some? && UpperFail(ss).None?
    ensures Decide(input, ss) == if Tested(ss, input.upper)
                                 then Plain(input, ss, Complete, MaximumTargetGradeConfirmed, None)
                                 else Plain(input, ss, Test, TestQualityUpper, Some(input.upper))
  {
    assert Last(ss) in ss;
    BracketHolds(ss, threshold);
    if Tested(ss, input.upper) {
      var s :| s in ss && s.o.candidate == input.upper;
      assert s.o.candidate <= LowerPass(ss).value;
    } else {
      var s :| s in ss && s.o.candidate == LowerPass(ss).value;
    }
  }

  /** No measurement met the target: the search descends until the minimum was measured. */
  lemma FailingDecision(input: Input, ss: seq<Sample>, threshold: nat)
    requires Ready(input, ss) && TargetSearch(input.profile) && ThresholdLink(ss, threshold)
    requires |ss| < input.maxAttempts && LowerPass(ss).None?
    ensures Lowest(ss).Some? && input.minimum <= Lowest(ss).value
    ensures Decide(input, ss) == if Tested(ss, input.minimum)
                                 then Plain(input, ss, Fallback, TargetUnreachable, None)
                                 else Plain(input, ss, Test, SearchLowerQuality,
                                            Some(Descent(input.minimum, Lowest(ss).value)))
  {
    assert Last(ss) in ss;
    BracketHolds(ss, threshold);
    BoundFacts(ss);
    SelectedFacts(input, ss);
    BestSafeFacts(input, ss);
  }

  lemma FallbackReason(input: Input, ss: seq<Sample>, reason: Reason)
    requires Ready(input, ss)
    ensures var r := Align(Conclude(input, ss, Plain(input, ss, Fallback, reason, None)));
            r.action.Fallback? && r.reason == reason
  {}

  lemma SpentWithoutPass(input: Input, ss: seq<Sample>, threshold: nat)
    requires Ready(input, ss) && TargetSearch(input.profile) && ThresholdLink(ss, threshold)
    requires |ss| >= input.maxAttempts && LowerPass(ss).None?
    ensures Decide(input, ss) == Plain(input, ss, Fallback, AttemptLimit, None)
  {
    assert Last(ss) in ss;
    BracketHolds(ss, threshold);
    SelectedFacts(input, ss);
    BestSafeFacts(input, ss);
  }

  lemma SpentWithPass(input: Input, ss: seq<Sample>, threshold: nat)
    requires Ready(input, ss) && TargetSearch(input.profile) && ThresholdLink(ss, threshold)
    requires |ss| >= input.maxAttempts && LowerPass(ss).Some?
    ensures Decide(input, ss) == Plain(input, ss, Complete, AttemptLimit, None)
  {
    assert Last(ss) in ss;
    SpentDecision(input, ss, threshold);
  }

  /** What the search answers, and what it asks for, on a threshold link. */
  ghost predicate ThresholdAnswer(input: Input, ss: seq<Sample>, r: SearchResult)
    requires ss != [] && forall s | s in ss :: input.minimum <= s.o.candidate
  {
    BoundFacts(ss);
    if |ss| >= input.maxAttempts then
      r.reason == AttemptLimit && if LowerPass(ss).Some? then r.action.Complete? else r.action.Fallback?
    else if LowerPass(ss).None? then
      if Tested(ss, input.minimum) then r.action.Fallback? && r.reason == TargetUnreachable
      else r.action.Test? && r.reason == SearchLowerQuality
           && r.next == Some(Descent(input.minimum, Lowest(ss).value))
    else if UpperFail(ss).None? then
      if Tested(ss, input.upper) then r.action.Complete? && r.reason == MaximumTargetGradeConfirmed
      else r.action.Test? && r.reason == TestQualityUpper && r.next == Some(input.upper)
    else if && LowerPass(ss).value < UpperFail(ss).value
            && Bisects(input, ss, LowerPass(ss).value, UpperFail(ss).value) then
      r.action.Test? && r.reason == BisectQualityBoundary
      && r.next == Some(Midpoint(LowerPass(ss).value, UpperFail(ss).value))
    else r.action.Complete? && r.reason == MaximumTargetGradeBounded
  }

  /** The answer to every history of a threshold link. */
  lemma ThresholdVerdict(input: Input, threshold: nat)
    requires Valid(input) && TargetSearch(input.profile) && ThresholdLink(Samples(input), threshold)
    ensures Ready(input, Samples(input)) && ThresholdAnswer(input, Samples(input), Optimize(input).value)
  {
    SamplesReady(input);
    var ss := Samples(input);
    forall s | s in ss ensures s.m.targetMet <==> s.m.delta < input.profile.TargetDelta() {
      JudgedMeaning(input, ss, s);
    }
    if Bracketed(ss) {
      BracketedVerdict(input, threshold);
      BracketHolds(ss, threshold);
      if Optimize(input).value.reason == BisectQualityBoundary { BisectAsksMidpoint(input); }
    } else if LowerPass(ss).None? {
      FailingVerdict(input, ss, threshold);
    } else {
      PassingVerdict(input, ss, threshold);
    }
  }

  lemma FailingVerdict(input: Input, ss: seq<Sample>, threshold: nat)
    requires Ready(input, ss) && TargetSearch(input.profile) && ThresholdLink(ss, threshold) && LowerPass(ss).None?
    ensures ThresholdAnswer(input, ss, OptimizeSamples(input, ss))
  {
    if |ss| >= input.maxAttempts {
      SpentWithoutPass(input, ss, threshold);
      FallbackReason(input, ss, AttemptLimit);
    } else {
      FailingDecision(input, ss, threshold);
      if Tested(ss, input.minimum) { FallbackReason(input, ss, TargetUnreachable); }
      else { AskedReason(input, ss, SearchLowerQuality, Descent(input.minimum, Lowest(ss).value)); }
    }
  }

  lemma PassingVerdict(input: Input, ss: seq<Sample>, threshold: nat)
    requires Ready(input, ss) && TargetSearch(input.profile) && ThresholdLink(ss, threshold)
    requires LowerPass(ss).Some? && UpperFail(ss).None? && DelayMeansTarget(ss, input.profile.TargetDelta())
    ensures ThresholdAnswer(input, ss, OptimizeSamples(input, ss))
  {
    if |ss| >= input.maxAttempts {
      SpentWithPass(input, ss, threshold);
      CompletedReason(input, ss, threshold, AttemptLimit);
    } else {
      PassingDecision(input, ss, threshold);
      if Tested(ss, input.upper) { CompletedReason(input, ss, threshold, MaximumTargetGradeConfirmed); }
      else { AskedReason(input, ss, TestQualityUpper, input.upper); }
    }
  }

  lemma AskedReason(input: Input, ss: seq<Sample>, reason: Reason, next: nat)
    requires Ready(input, ss)
    ensures var r := Align(Conclude(input, ss, Plain(input, ss, Test, reason, Some(next))));
            r.action.Test? && r.reason == reason && r.next == Some(next)
  {}

  // ----- a whole closed loop

  /** Every measurement of a threshold link answers the request made before it. */
  ghost predicate ThresholdLoop(input: Input, threshold: nat) {
    && Valid(input) && TargetSearch(input.profile) && ThresholdLink(Samples(input), threshold)
    && Valid(Prefix(input, 1)) && ClosedLoop(Ask, input)
  }

  /** What such a request is, before there is a bracket. */
  ghost predicate Asks(input: Input, ss: seq<Sample>, next: nat) {
    if LowerPass(ss).None? then
      && Lowest(ss).Some? && input.minimum <= Lowest(ss).value && !Tested(ss, input.minimum)
      && next == Descent(input.minimum, Lowest(ss).value)
    else UpperFail(ss).None? ==> !Tested(ss, input.upper) && next == input.upper
  }

  lemma TurnAsks(input: Input, threshold: nat, n: nat)
    requires ThresholdLoop(input, threshold) && 1 <= n < |input.observations|
    ensures Asks(input, Samples(input)[..n], Samples(input)[n].o.candidate)
  {
    LoopValid(input, n);
    PrefixSamples(input, n);
    var all := Samples(input);
    SubLink(all, all[..n], threshold);
    assert Answered(Ask, input, n);
    ThresholdVerdict(Prefix(input, n), threshold);
    BoundFacts(all[..n]);
  }

  /** Every measured rate lies within the limits. */
  ghost predicate InRange(all: seq<Sample>, minimum: nat, upper: nat) {
    minimum <= upper <= MAX_RATE && forall s | s in all :: minimum <= s.o.candidate <= upper
  }

  lemma SamplesInRange(input: Input)
    requires Valid(input)
    ensures InRange(Samples(input), input.minimum, input.upper)
  {
    SamplesReady(input);
  }

  // ----- the descent

  /** The first `n` measurements all failed. */
  ghost predicate Falling(all: seq<Sample>, n: nat) { 1 <= n <= |all| && LowerPass(all[..n]).None? }

  ghost function DepthAt(all: seq<Sample>, minimum: nat, n: nat): int {
    if n <= |all| && Lowest(all[..n]).Some? then Lowest(all[..n]).value - minimum else 0
  }

  ghost function Depth(all: seq<Sample>, minimum: nat): nat -> int { (n: nat) => DepthAt(all, minimum, n) }

  /** A descent strictly lowers the lowest measured rate. */
  lemma DescentLowers(minimum: nat, lowest: nat)
    requires minimum < lowest <= MAX_RATE
    ensures minimum <= Descent(minimum, lowest) < lowest
    ensures 2 * (Descent(minimum, lowest) - minimum) < lowest - minimum + 200
    ensures Descent(minimum, lowest) == minimum || Descent(minimum, lowest) % 100 == 0
  {
    MidpointHalves(minimum, lowest);
    var middle := minimum as real + (lowest - minimum) as real / 2.0;
    if Midpoint(minimum, lowest) < lowest { RoundedIsMultiple(middle); }
  }

  lemma LowestOfMore(ss: seq<Sample>, s: Sample)
    requires ss != [] && s.o.candidate < Lowest(ss).value
    ensures Lowest(ss + [s]) == Some(s.o.candidate)
  {
    BoundFacts(ss);
    BoundFacts(ss + [s]);
    assert s in ss + [s];
  }

  /** One turn of the descent. */
  lemma FallingTurn(input: Input, all: seq<Sample>, n: nat)
    requires InRange(all, input.minimum, input.upper) && 1 <= n < |all| && Falling(all, n)
    requires Asks(input, all[..n], all[n].o.candidate)
    ensures Lowest(all[..n]).Some? && input.minimum < Lowest(all[..n]).value <= MAX_RATE
    ensures all[n].o.candidate == Descent(input.minimum, Lowest(all[..n]).value)
    ensures Lowest(all[..n + 1]) == Some(all[n].o.candidate)
  {
    BoundFacts(all[..n]);
    var s :| s in all[..n] && s.o.candidate == Lowest(all[..n]).value;
    assert s in all;
    DescentLowers(input.minimum, Lowest(all[..n]).value);
    assert all[..n + 1] == all[..n] + [all[n]];
    LowestOfMore(all[..n], all[n]);
  }

  lemma FallingHalves(input: Input, all: seq<Sample>, n: nat)
    requires InRange(all, input.minimum, input.upper) && 1 <= n < |all| && Falling(all, n)
    requires Asks(input, all[..n], all[n].o.candidate)
    ensures Halves(Depth(all, input.minimum), n)
  {
    FallingTurn(input, all, n);
    DescentLowers(input.minimum, Lowest(all[..n]).value);
  }

  /** Every later measurement is what was asked for. */
  ghost predicate Asked(input: Input, all: seq<Sample>) {
    && InRange(all, input.minimum, input.upper)
    && forall k | 1 <= k < |all| :: Asks(input, all[..k], all[k].o.candidate)
  }

  lemma FallingTurns(input: Input, all: seq<Sample>, n: nat)
    requires Asked(input, all) && 1 <= n < |all| && Falling(all, n)
    ensures Halves(Depth(all, input.minimum), n)
    ensures DepthAt(all, input.minimum, n) > 0 && !Tested(all[..n], input.minimum)
    ensures input.minimum + DepthAt(all, input.minimum, n) <= MAX_RATE
    ensures DepthAt(all, input.minimum, n + 1) == all[n].o.candidate - input.minimum
    ensures all[n].o.candidate
            == Descent(input.minimum, input.minimum + DepthAt(all, input.minimum, n))
  {
    assert Asks(input, all[..n], all[n].o.candidate);
    FallingHalves(input, all, n);
    FallingTurn(input, all, n);
  }

  lemma SecondDescent(minimum: nat, lowest: nat)
    requires minimum < lowest <= MAX_RATE && lowest < minimum + 200 && lowest % 100 == 0
    ensures Descent(minimum, lowest) == minimum
  {
    RoundsToUpper(minimum, lowest);
  }

  /** From 200 kbit/s above the minimum two descents reach it. */
  lemma TwoDescents(minimum: nat, depth: nat)
    requires 0 < depth <= 200 && minimum + depth <= MAX_RATE && Descent(minimum, minimum + depth) > minimum
    ensures Descent(minimum, Descent(minimum, minimum + depth)) == minimum
  {
    DescentLowers(minimum, minimum + depth);
    SecondDescent(minimum, Descent(minimum, minimum + depth));
  }

  /** And then there is none. */
  lemma ShallowDescentEnds(input: Input, all: seq<Sample>, n: nat)
    requires Asked(input, all) && 1 <= n && n + 2 <= |all| && Falling(all, n) && Falling(all, n + 1)
    requires DepthAt(all, input.minimum, n) <= 200
    ensures Tested(all[..n + 2], input.minimum)
  {
    var second := all[n + 1].o.candidate;
    assert second == input.minimum by { SecondReachesMinimum(input, all, n); }
    assert all[..n + 2][n + 1] == all[n + 1];
  }

  lemma SecondReachesMinimum(input: Input, all: seq<Sample>, n: nat)
    requires Asked(input, all) && 1 <= n && n + 2 <= |all| && Falling(all, n) && Falling(all, n + 1)
    requires DepthAt(all, input.minimum, n) <= 200
    ensures all[n + 1].o.candidate == input.minimum
  {
    var first, lowest := FallingStep(input, all, n);
    var second, next := FallingStep(input, all, n + 1);
    DescendsTwice(input.minimum, lowest, first, second);
  }

  /** The rate measured by a turn of the descent, and the lowest one before it. */
  lemma FallingStep(input: Input, all: seq<Sample>, n: nat) returns (rate: nat, lowest: nat)
    requires Asked(input, all) && 1 <= n < |all| && Falling(all, n)
    ensures rate == all[n].o.candidate && lowest == input.minimum + DepthAt(all, input.minimum, n)
    ensures input.minimum < lowest <= MAX_RATE && rate == Descent(input.minimum, lowest)
    ensures input.minimum + DepthAt(all, input.minimum, n + 1) == rate
  {
    FallingTurns(input, all, n);
    rate, lowest := all[n].o.candidate, input.minimum + DepthAt(all, input.minimum, n);
  }

  lemma DescendsTwice(minimum: nat, lowest: nat, first: nat, second: nat)
    requires minimum < lowest <= MAX_RATE && lowest <= minimum + 200 && first == Descent(minimum, lowest)
    requires minimum < first && second == Descent(minimum, first)
    ensures second == minimum
  {
    TwoDescents(minimum, lowest - minimum);
  }

  /** While falling, a loop has at most `j + 3` measurements. */
  lemma FallingEnds(input: Input, all: seq<Sample>, n: nat, j: nat)
    requires Asked(input, all) && 1 <= n < |all| && FallsUntil(all, n)
    requires HalvesAway(Depth(all, input.minimum), 1, j)
    ensures n <= j + 2
  {
    var thin := 1 + j;
    if thin + 2 <= n {
      DepthThins(input, all, j, thin);
      assert Falling(all, thin) && Falling(all, thin + 1) && Falling(all, thin + 2);
      ShallowStops(input, all, thin);
    }
  }

  ghost predicate FallsUntil(all: seq<Sample>, n: nat) { forall k | 1 <= k <= n :: Falling(all, k) }

  lemma ShallowStops(input: Input, all: seq<Sample>, n: nat)
    requires Asked(input, all) && Falling(all, n) && Falling(all, n + 1) && Falling(all, n + 2)
    requires DepthAt(all, input.minimum, n) <= 200
    ensures |all| <= n + 2
  {
    if n + 2 < |all| {
      FallingTurns(input, all, n + 2);
      ShallowDescentEnds(input, all, n);
    }
  }

  lemma DepthThins(input: Input, all: seq<Sample>, j: nat, thin: nat)
    requires Asked(input, all) && thin == 1 + j < |all| && FallsUntil(all, thin)
    requires HalvesAway(Depth(all, input.minimum), 1, j)
    ensures DepthAt(all, input.minimum, thin) <= 200
  {
    forall k | 1 <= k < thin ensures Halves(Depth(all, input.minimum), k) {
      assert Falling(all, k);
      FallingTurns(input, all, k);
    }
    RepeatedHalving(Depth(all, input.minimum), 1, j);
    HalvedAway(Depth(all, input.minimum), 1, j, thin);
  }

  // ----- from the first measurement to the last

  /** A pass and a fail among the first `m` make a bracket. */
  lemma PassAndFail(ss: seq<Sample>, threshold: nat, low: Sample, high: Sample)
    requires ThresholdLink(ss, threshold) && low in ss && high in ss
    requires low.o.candidate <= threshold < high.o.candidate
    ensures Bracketed(ss)
  {
    BracketHolds(ss, threshold);
  }

  lemma NothingPassed(ss: seq<Sample>, threshold: nat)
    requires ThresholdLink(ss, threshold)
    ensures LowerPass(ss).None? <==> forall s | s in ss :: s.o.candidate > threshold
    ensures LowerPass(ss).Some? && UpperFail(ss).None? <==>
            ss != [] && forall s | s in ss :: s.o.candidate <= threshold
  {
    BracketHolds(ss, threshold);
    if LowerPass(ss).Some? { var s :| s in ss && s.o.candidate == LowerPass(ss).value; }
  }

  /** The first measurement that passed, if the first of all failed. */
  lemma FirstPass(all: seq<Sample>, threshold: nat) returns (p: nat)
    requires ThresholdLink(all, threshold) && all != [] && all[0].o.candidate > threshold
    ensures 1 <= p <= |all| && FallsUntil(all, p)
    ensures p < |all| ==> Bracketed(all[..p + 1])
  {
    p := FirstUpTo(Rates(all), threshold);
    assert forall i | 0 <= i < p :: all[i].o.candidate == Rates(all)[i];
    forall k | 1 <= k <= p ensures Falling(all, k) { AllFailed(all, threshold, k); }
    if p < |all| { PassedAt(all, threshold, p); }
  }

  lemma FirstUpTo(rates: seq<nat>, threshold: nat) returns (p: nat)
    requires rates != [] && rates[0] > threshold
    ensures 1 <= p <= |rates| && (forall i | 0 <= i < p :: rates[i] > threshold)
    ensures p < |rates| ==> rates[p] <= threshold
  {
    p := 1;
    while p < |rates| && rates[p] > threshold
      invariant 1 <= p <= |rates| && forall i | 0 <= i < p :: rates[i] > threshold
    {
      p := p + 1;
    }
  }

  lemma AllFailed(all: seq<Sample>, threshold: nat, k: nat)
    requires ThresholdLink(all, threshold) && 1 <= k <= |all| && forall i | 0 <= i < k :: all[i].o.candidate > threshold
    ensures Falling(all, k)
  {
    SubLink(all, all[..k], threshold);
    NothingPassed(all[..k], threshold);
  }

  lemma PassedAt(all: seq<Sample>, threshold: nat, p: nat)
    requires ThresholdLink(all, threshold) && p < |all| && all[p].o.candidate <= threshold < all[0].o.candidate
    ensures Bracketed(all[..p + 1])
  {
    SubLink(all, all[..p + 1], threshold);
    assert all[..p + 1][p] == all[p] && all[..p + 1][0] == all[0];
    PassAndFail(all[..p + 1], threshold, all[p], all[0]);
  }

  /** Before there is a bracket: at most `j + 3` measurements if the first failed, and two if it passed. */
  lemma BracketComes(input: Input, all: seq<Sample>, threshold: nat, j: nat) returns (m: nat)
    requires Asked(input, all) && all != [] && ThresholdLink(all, threshold)
    requires input.upper - input.minimum - 200 < Pow2(j)
    ensures 1 <= m <= j + 3 && (m < |all| ==> Bracketed(all[..m]))
  {
    if all[0].o.candidate > threshold {
      var p := FirstPass(all, threshold);
      DepthOfFirst(input, all, j);
      if p < |all| {
        FallingEnds(input, all, p, j);
        m := p + 1;
      } else {
        m := |all|;
        if p > 1 { FallingEnds(input, all, p - 1, j); }
      }
    } else {
      m := 2;
      if 2 < |all| { SecondFails(input, all, threshold); }
    }
  }

  lemma DepthOfFirst(input: Input, all: seq<Sample>, j: nat)
    requires Asked(input, all) && all != [] && input.upper - input.minimum - 200 < Pow2(j)
    ensures HalvesAway(Depth(all, input.minimum), 1, j)
  {
    BoundFacts(all[..1]);
    var s :| s in all[..1] && s.o.candidate == Lowest(all[..1]).value;
    assert s in all;
  }

  /** After a first pass the upper bound is measured; if more follows, it failed. */
  lemma SecondFails(input: Input, all: seq<Sample>, threshold: nat)
    requires Asked(input, all) && |all| > 2 && ThresholdLink(all, threshold) && all[0].o.candidate <= threshold
    ensures Bracketed(all[..2])
  {
    SubLink(all, all[..1], threshold);
    SubLink(all, all[..2], threshold);
    NothingPassed(all[..1], threshold);
    NothingPassed(all[..2], threshold);
    assert all[..1][0] == all[0] && all[..2][0] == all[0] && all[..2][1] == all[1];
    assert Asks(input, all[..1], all[1].o.candidate) && Asks(input, all[..2], all[2].o.candidate);
    assert all[1].o.candidate == input.upper && Tested(all[..2], input.upper);
    BracketHolds(all[..2], threshold);
  }

  lemma LoopAsked(input: Input, threshold: nat)
    requires ThresholdLoop(input, threshold)
    ensures Asked(input, Samples(input))
  {
    SamplesInRange(input);
    forall k | 1 <= k < |input.observations|
      ensures Asks(input, Samples(input)[..k], Samples(input)[k].o.candidate) { TurnAsks(input, threshold, k); }
  }

  /**
   A closed loop on a threshold link between a minimum and an upper rate less
   than 200 + 2^j kbit/s apart takes at most 2j + 4 measurements.
   */
  lemma SearchEnds(input: Input, threshold: nat, j: nat)
    requires ThresholdLoop(input, threshold) && input.upper - input.minimum - 200 < Pow2(j)
    ensures |input.observations| <= 2 * j + 4
  {
    LoopAsked(input, threshold);
    var m := BracketComes(input, Samples(input), threshold, j);
    if m < |input.observations| {
      BracketWithin(input, threshold, m, j);
      LoopEnds(input, threshold, m, j);
    }
  }

  lemma BracketWithin(input: Input, threshold: nat, m: nat, j: nat)
    requires ThresholdLoop(input, threshold) && 1 <= m < |input.observations| && Bracketed(Samples(input)[..m])
    requires input.upper - input.minimum - 200 < Pow2(j)
    ensures BisectingLoop(input, threshold, m) && HalvesAway(BracketWidth(input), m, j)
  {
    WidthOf(input, threshold, m, m);
    SamplesInRange(input);
    WidthInRange(Samples(input), threshold, m, input.minimum, input.upper);
  }

  lemma WidthInRange(all: seq<Sample>, threshold: nat, m: nat, minimum: nat, upper: nat)
    requires InRange(all, minimum, upper) && m <= |all| && ThresholdLink(all, threshold) && Bracketed(all[..m])
    ensures UpperFail(all[..m]).value - LowerPass(all[..m]).value <= upper - minimum
  {
    SubLink(all, all[..m], threshold);
    BracketHolds(all[..m], threshold);
    var l :| l in all[..m] && l.o.candidate == LowerPass(all[..m]).value;
    var u :| u in all[..m] && u.o.candidate == UpperFail(all[..m]).value;
    assert l in all && u in all;
  }
}
