/**
 How long the latency-target searches bisect on a threshold link: once a pass and
 a fail are measured, every request is the next midpoint, and the number of
 measurements until the verdict is logarithmic in the width of the bracket.
 */
module SearchLength {
  import opened Selection
  import opened SearchHistory
  import opened Review
  import opened ReviewTheorems
  import opened Search
  import opened SearchTheorems
  import opened SearchConvergence

  ghost predicate Bracketed(ss: seq<Sample>) { LowerPass(ss).Some? && UpperFail(ss).Some? }

  // ----- the verdict once there is a bracket

  /** The decision is settled by the attempt limit and the bracket alone. */
  lemma BracketedDecision(input: Input, ss: seq<Sample>, threshold: nat)
    requires Ready(input, ss) && TargetSearch(input.profile) && ThresholdLink(ss, threshold) && Bracketed(ss)
    ensures var (lower, upper) := (LowerPass(ss).value, UpperFail(ss).value);
            lower < upper
            && Decide(input, ss)
               == if |ss| >= input.maxAttempts then Plain(input, ss, Complete, AttemptLimit, None)
                  else if Bisects(input, ss, lower, upper)
                  then Plain(input, ss, Test, BisectQualityBoundary, Some(Midpoint(lower, upper)))
                  else Plain(input, ss, Complete, MaximumTargetGradeBounded, None)
  {
    assert Last(ss) in ss;
    BracketHolds(ss, threshold);
    if |ss| >= input.maxAttempts { SpentDecision(input, ss, threshold); }
  }

  lemma SpentDecision(input: Input, ss: seq<Sample>, threshold: nat)
    requires Ready(input, ss) && TargetSearch(input.profile) && ThresholdLink(ss, threshold) && LowerPass(ss).Some?
    ensures DecideAtLimit(input, ss) == Plain(input, ss, Complete, AttemptLimit, None)
  {
    BestTargetIsHighest(ss, threshold);
    var best := BestTarget(ss).value;
    BracketHolds(ss, threshold);
    assert ProfileSelected(input, ss) == Some(best) && best.m.safe && best.m.targetMet;
  }

  /** A completed decision keeps its reason: the first review option is at the highest passing rate. */
  lemma CompletedReason(input: Input, ss: seq<Sample>, threshold: nat, reason: Reason)
    requires Ready(input, ss) && TargetSearch(input.profile) && ThresholdLink(ss, threshold) && LowerPass(ss).Some?
    requires DelayMeansTarget(ss, input.profile.TargetDelta())
    ensures var r := Align(Conclude(input, ss, Plain(input, ss, Complete, reason, None)));
            r.action.Complete? && r.reason == reason
  {
    BestTargetIsHighest(ss, threshold);
    var c := Conclude(input, ss, Plain(input, ss, Complete, reason, None));
    assert c.samples == ss && c.action.Complete? && c.reason == reason && c.profile == input.profile;
    assert SelectedRate(c) == LowerPass(c.samples);
    HighestPassRecommended(c, threshold, input.profile.TargetDelta());
    BracketHolds(ss, threshold);
    StaysComplete(c, ReviewOptions(c));
  }

  lemma StaysComplete(c: SearchResult, options: seq<ReviewOption>)
    requires c.action.Complete? && options != [] && Certified(c, options[0].candidate.worst)
    ensures AlignTo(c, options).action.Complete? && AlignTo(c, options).reason == c.reason
  {}

  /** With a pass and a fail measured, a verdict is the next bisection, the bounded maximum or the attempt limit. */
  lemma BracketedVerdict(input: Input, threshold: nat)
    requires Valid(input) && TargetSearch(input.profile)
    requires ThresholdLink(Samples(input), threshold) && Bracketed(Samples(input))
    ensures var ss, r := Samples(input), Optimize(input).value;
            if |ss| >= input.maxAttempts then r.action.Complete? && r.reason == AttemptLimit
            else if Bisects(input, ss, LowerPass(ss).value, UpperFail(ss).value)
            then r.action.Test? && r.reason == BisectQualityBoundary
            else r.action.Complete? && r.reason == MaximumTargetGradeBounded
  {
    SamplesReady(input);
    var ss := Samples(input);
    forall s | s in ss ensures s.m.targetMet <==> s.m.delta < input.profile.TargetDelta() {
      JudgedMeaning(input, ss, s);
    }
    BracketedDecision(input, ss, threshold);
    if |ss| >= input.maxAttempts {
      CompletedReason(input, ss, threshold, AttemptLimit);
    } else if Bisects(input, ss, LowerPass(ss).value, UpperFail(ss).value) {
      DecisionSound(input, ss);
      ConcludeSound(input, ss, Decide(input, ss));
    } else {
      CompletedReason(input, ss, threshold, MaximumTargetGradeBounded);
    }
  }

  // ----- the closed loop once there is a bracket

  lemma PrefixSamples(input: Input, n: nat)
    requires Valid(input) && n <= |input.observations| && Valid(Prefix(input, n))
    ensures Samples(Prefix(input, n)) == Samples(input)[..n]
  {
    var all, first := Samples(input), Samples(Prefix(input, n));
    forall i | 0 <= i < n ensures first[i] == all[i] {}
  }

  /** More measurements keep the bracket. */
  lemma BracketStays(ss: seq<Sample>, more: seq<Sample>, threshold: nat)
    requires ThresholdLink(more, threshold) && ss <= more && Bracketed(ss)
    ensures Bracketed(more)
  {
    SubLink(more, ss, threshold);
    BracketHolds(ss, threshold);
    BracketHolds(more, threshold);
    var l :| l in ss && l.o.candidate == LowerPass(ss).value;
    var u :| u in ss && u.o.candidate == UpperFail(ss).value;
    assert l in more && u in more;
  }

  /** A closed loop on a threshold link whose first `m` measurements hold a pass and a fail. */
  ghost predicate BisectingLoop(input: Input, threshold: nat, m: nat) {
    && Valid(input) && TargetSearch(input.profile) && ThresholdLink(Samples(input), threshold)
    && 1 <= m <= |input.observations| && Valid(Prefix(input, 1)) && ClosedLoop(Ask, input)
    && Bracketed(Samples(input)[..m])
  }

  lemma LaterPrefix(input: Input, threshold: nat, m: nat, n: nat)
    requires BisectingLoop(input, threshold, m) && m <= n <= |input.observations|
    ensures Valid(Prefix(input, n)) && Samples(Prefix(input, n)) == Samples(input)[..n]
    ensures ThresholdLink(Samples(input)[..n], threshold) && Bracketed(Samples(input)[..n])
  {
    LoopValid(input, n);
    PrefixSamples(input, n);
    LaterBracket(Samples(input), threshold, m, n);
  }

  lemma LoopValid(input: Input, n: nat)
    requires 1 <= n <= |input.observations| && Valid(Prefix(input, 1)) && ClosedLoop(Ask, input)
    ensures Valid(Prefix(input, n)) && n <= input.maxAttempts
  {
    AskIsBounded();
    LoopBounded(Ask, input, n);
  }

  lemma LaterBracket(all: seq<Sample>, threshold: nat, m: nat, n: nat)
    requires ThresholdLink(all, threshold) && m <= n <= |all| && Bracketed(all[..m])
    ensures ThresholdLink(all[..n], threshold) && Bracketed(all[..n])
  {
    SubLink(all, all[..n], threshold);
    assert all[..m] <= all[..n];
    BracketStays(all[..m], all[..n], threshold);
  }

  /** From then on every answered request was a bisection. */
  lemma LoopGoesOnBisecting(input: Input, threshold: nat, m: nat, n: nat)
    requires BisectingLoop(input, threshold, m) && m <= n < |input.observations|
    ensures AsksToBisect(Prefix(input, n)) && MidpointTurn(input, n)
  {
    LaterPrefix(input, threshold, m, n);
    LaterPrefix(input, threshold, m, n + 1);
    assert Answered(Ask, input, n);
    BracketedVerdict(Prefix(input, n), threshold);
    AnsweredBisection(input, n);
  }

  // ----- the last turns, in a bracket of at most 200 kbit/s

  /** A measured midpoint replaces the end of the bracket on its side of the threshold. */
  lemma BisectedBracket(ss: seq<Sample>, threshold: nat, s: Sample)
    requires ThresholdLink(ss + [s], threshold) && Bracketed(ss)
    requires LowerPass(ss).value < s.o.candidate < UpperFail(ss).value
    ensures Bracketed(ss + [s])
    ensures LowerPass(ss + [s]).value == if s.o.candidate <= threshold then s.o.candidate else LowerPass(ss).value
    ensures UpperFail(ss + [s]).value == if s.o.candidate <= threshold then UpperFail(ss).value else s.o.candidate
  {
    var after := ss + [s];
    SubLink(after, ss, threshold);
    BracketStays(ss, after, threshold);
    EndsOf(ss, threshold);
    EndsOf(after, threshold);
    LowerReplaced(ss, threshold, s, LowerPass(ss).value, LowerPass(after).value);
    UpperReplaced(ss, threshold, s, UpperFail(ss).value, UpperFail(after).value);
  }

  ghost predicate HighestUpTo(ss: seq<Sample>, threshold: nat, rate: nat) {
    Tested(ss, rate) && rate <= threshold && forall s | s in ss && s.o.candidate <= threshold :: s.o.candidate <= rate
  }

  ghost predicate LowestBeyond(ss: seq<Sample>, threshold: nat, rate: nat) {
    Tested(ss, rate) && threshold < rate && forall s | s in ss && s.o.candidate > threshold :: rate <= s.o.candidate
  }

  lemma EndsOf(ss: seq<Sample>, threshold: nat)
    requires ThresholdLink(ss, threshold) && Bracketed(ss)
    ensures HighestUpTo(ss, threshold, LowerPass(ss).value) && LowestBeyond(ss, threshold, UpperFail(ss).value)
  {
    BracketHolds(ss, threshold);
  }

  lemma LowerReplaced(ss: seq<Sample>, threshold: nat, s: Sample, before: nat, after: nat)
    requires HighestUpTo(ss, threshold, before) && HighestUpTo(ss + [s], threshold, after) && before < s.o.candidate
    ensures after == if s.o.candidate <= threshold then s.o.candidate else before
  {
    var known :| known in ss && known.o.candidate == before;
    assert known in ss + [s] && s in ss + [s];
  }

  lemma UpperReplaced(ss: seq<Sample>, threshold: nat, s: Sample, before: nat, after: nat)
    requires LowestBeyond(ss, threshold, before) && LowestBeyond(ss + [s], threshold, after) && s.o.candidate < before
    ensures after == if s.o.candidate <= threshold then before else s.o.candidate
  {
    var known :| known in ss && known.o.candidate == before;
    assert known in ss + [s] && s in ss + [s];
  }

  lemma RoundedIsMultiple(rate: real)
    requires RoundedRateUp(rate) < MAX_RATE
    ensures RoundedRateUp(rate) % 100 == 0
  {}

  lemma ResolutionFloor(observedLow: nat)
    ensures Resolution(observedLow) >= 100
  {}

  /** One bisection: the bracket was wider than 100 kbit/s, and its rounded midpoint replaces one end. */
  ghost predicate Step(lower: nat, upper: nat, nextLower: nat, nextUpper: nat) {
    && lower + 100 < upper <= MAX_RATE
    && var next := Midpoint(lower, upper);
       && lower < next < upper && next % 100 == 0
       && ((nextLower == next && nextUpper == upper) || (nextLower == lower && nextUpper == next))
  }

  /** Below a multiple of 100 the midpoint of less than 200 kbit/s is rounded up to that multiple. */
  lemma RoundsToUpper(lower: nat, upper: nat)
    requires lower < upper < lower + 200 && upper <= MAX_RATE && upper % 100 == 0
    ensures Midpoint(lower, upper) == upper
  {
    var middle := lower as real + (upper - lower) as real / 2.0;
    if RoundedRateUp(middle) < upper { RoundedIsMultiple(middle); }
  }

  /** After a step in a bracket of at most 200 kbit/s there is none: too narrow, or the midpoint rounds to its end. */
  lemma LastStep(lower: nat, upper: nat, nextLower: nat, nextUpper: nat)
    requires Step(lower, upper, nextLower, nextUpper) && upper - lower <= 200
    ensures nextLower < nextUpper && (nextUpper - nextLower <= 100 || Midpoint(nextLower, nextUpper) == nextUpper)
  {
    MidpointHalves(lower, upper);
    if nextUpper != upper { RoundsToUpper(nextLower, nextUpper); }
  }

  /** The measurement after the first `n` is such a step of the bracket. */
  ghost predicate StepAt(all: seq<Sample>, n: nat) {
    && n < |all| && Bracketed(all[..n]) && Bracketed(all[..n + 1])
    && Step(LowerPass(all[..n]).value, UpperFail(all[..n]).value,
            LowerPass(all[..n + 1]).value, UpperFail(all[..n + 1]).value)
  }

  lemma TurnIsStep(input: Input, threshold: nat, m: nat, n: nat)
    requires BisectingLoop(input, threshold, m) && m <= n < |input.observations|
    ensures StepAt(Samples(input), n)
  {
    LaterPrefix(input, threshold, m, n);
    LoopGoesOnBisecting(input, threshold, m, n);
    UpperWithin(Prefix(input, n));
    MeasuredStep(input, Samples(input), threshold, n);
  }

  lemma MeasuredStep(input: Input, all: seq<Sample>, threshold: nat, n: nat)
    requires ThresholdLink(all, threshold) && n < |all| && Bracketed(all[..n]) && UpperFail(all[..n]).value <= MAX_RATE
    requires Bisects(input, all[..n], LowerPass(all[..n]).value, UpperFail(all[..n]).value)
    requires all[n].o.candidate == Midpoint(LowerPass(all[..n]).value, UpperFail(all[..n]).value)
    ensures StepAt(all, n)
  {
    assert all[..n + 1] == all[..n] + [all[n]];
    SubLink(all, all[..n + 1], threshold);
    StepFrom(input, all[..n], threshold, all[n]);
  }

  lemma StepFrom(input: Input, ss: seq<Sample>, threshold: nat, s: Sample)
    requires ThresholdLink(ss + [s], threshold) && Bracketed(ss) && UpperFail(ss).value <= MAX_RATE
    requires Bisects(input, ss, LowerPass(ss).value, UpperFail(ss).value)
    requires s.o.candidate == Midpoint(LowerPass(ss).value, UpperFail(ss).value)
    ensures Bracketed(ss + [s])
    ensures Step(LowerPass(ss).value, UpperFail(ss).value, LowerPass(ss + [s]).value, UpperFail(ss + [s]).value)
  {
    BisectedBracket(ss, threshold, s);
    ResolutionFloor(input.observedLow);
    var lower, upper := LowerPass(ss).value, UpperFail(ss).value;
    RoundedIsMultiple(lower as real + (upper - lower) as real / 2.0);
  }

  /** The width after the first `m` is below 200 + 2^j kbit/s. */
  ghost predicate HalvesAway(width: nat -> int, m: nat, j: nat) { width(m) - 200 < Pow2(j) }

  ghost predicate Thin(width: nat -> int, n: nat) { width(n) <= 200 }

  lemma WidthOf(input: Input, threshold: nat, m: nat, n: nat)
    requires BisectingLoop(input, threshold, m) && m <= n <= |input.observations|
    ensures var ss := Samples(input)[..n];
            Bracketed(ss) && BracketWidth(input)(n) == UpperFail(ss).value - LowerPass(ss).value
  {
    LaterPrefix(input, threshold, m, n);
  }

  /** A bracket of at most 200 kbit/s is bisected at most once. */
  lemma NarrowEnds(all: seq<Sample>, n: nat)
    requires n <= |all| && (n < |all| ==> StepAt(all, n)) && (n + 1 < |all| ==> StepAt(all, n + 1))
    requires Bracketed(all[..n]) && UpperFail(all[..n]).value - LowerPass(all[..n]).value <= 200
    ensures |all| <= n + 1
  {
    if n + 1 < |all| {
      LastStep(LowerPass(all[..n]).value, UpperFail(all[..n]).value, LowerPass(all[..n + 1]).value,
               UpperFail(all[..n + 1]).value);
    }
  }

  lemma NarrowLoopEnds(input: Input, threshold: nat, m: nat, n: nat)
    requires BisectingLoop(input, threshold, m) && m <= n <= |input.observations|
    requires Thin(BracketWidth(input), n)
    ensures |input.observations| <= n + 1
  {
    WidthOf(input, threshold, m, n);
    forall k | n <= k < |input.observations| ensures StepAt(Samples(input), k) { TurnIsStep(input, threshold, m, k); }
    NarrowEnds(Samples(input), n);
  }

  // ----- the whole loop

  lemma HalvedAway(width: nat -> int, m: nat, j: nat, end: nat)
    requires HalvedBy(width, m, j) && HalvesAway(width, m, j) && end == m + j
    ensures Thin(width, end)
  {
    if width(m + j) > 200 {
      ScaleLe(Pow2(j), 1, width(m + j) - 200);
    }
  }

  /**
   A closed loop with a pass and a fail among its first `m` measurements has at
   most `j + 1` more, for any `j` with bracket width < 200 + 2^j.
   */
  lemma LoopEnds(input: Input, threshold: nat, m: nat, j: nat)
    requires BisectingLoop(input, threshold, m)
    requires HalvesAway(BracketWidth(input), m, j)
    ensures |input.observations| <= m + j + 1
  {
    var n := m + j;
    if n <= |input.observations| {
      LoopNarrows(input, threshold, m, j, n);
      NarrowLoopEnds(input, threshold, m, n);
    }
  }

  lemma LoopNarrows(input: Input, threshold: nat, m: nat, j: nat, end: nat)
    requires BisectingLoop(input, threshold, m) && end == m + j <= |input.observations|
    requires HalvesAway(BracketWidth(input), m, j)
    ensures Thin(BracketWidth(input), end)
  {
    LoopHalves(input, threshold, m, j);
    HalvedAway(BracketWidth(input), m, j, end);
  }

  lemma LoopHalves(input: Input, threshold: nat, m: nat, j: nat)
    requires BisectingLoop(input, threshold, m) && m + j <= |input.observations|
    ensures HalvedBy(BracketWidth(input), m, j)
  {
    forall n | m <= n < m + j ensures AsksToBisect(Prefix(input, n)) {
      LoopGoesOnBisecting(input, threshold, m, n);
    }
    LoopHalvesBracket(input, threshold, m, j);
  }

  /** When such a loop asks for no more, it has found the bounded maximum or spent its attempts. */
  lemma EndVerdict(input: Input, threshold: nat, m: nat)
    requires BisectingLoop(input, threshold, m)
    ensures Ask(input).None? ==>
              || Optimize(input).value.reason == MaximumTargetGradeBounded
              || (Optimize(input).value.reason == AttemptLimit && |input.observations| == input.maxAttempts)
  {
    BracketedAtEnd(input, threshold, m);
    VerdictEnds(input, threshold);
  }

  lemma BracketedAtEnd(input: Input, threshold: nat, m: nat)
    requires BisectingLoop(input, threshold, m)
    ensures Bracketed(Samples(input)) && |input.observations| <= input.maxAttempts
  {
    var all := Samples(input);
    BracketStays(all[..m], all, threshold);
    LoopValid(input, |input.observations|);
  }

  lemma VerdictEnds(input: Input, threshold: nat)
    requires Valid(input) && TargetSearch(input.profile)
    requires ThresholdLink(Samples(input), threshold) && Bracketed(Samples(input))
    ensures Ask(input).None? ==>
              || Optimize(input).value.reason == MaximumTargetGradeBounded
              || (Optimize(input).value.reason == AttemptLimit && |input.observations| >= input.maxAttempts)
  {
    BracketedVerdict(input, threshold);
    if Optimize(input).value.reason == BisectQualityBoundary { BisectAsksMidpoint(input); }
  }
}
