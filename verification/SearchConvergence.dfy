/**
 The latency-target searches on a well-behaved link: every measurement is safe,
 a higher shaped rate achieves more, and the delay target is met exactly up to a
 threshold rate. The search then brackets the threshold, halves the bracket, and
 its bounded verdict selects the highest passing rate that was measured.
 */
module SearchConvergence {
  import opened Selection
  import opened SearchHistory
  import opened Review
  import opened ReviewTheorems
  import opened Search
  import opened SearchTheorems

  ghost predicate ThresholdLink(ss: seq<Sample>, threshold: nat) {
    && (forall s | s in ss :: s.m.safe && s.m.reliable && s.m.resourceSafe
                              && (s.m.targetMet <==> s.o.candidate <= threshold))
    && (forall s, t | s in ss && t in ss && s.o.candidate < t.o.candidate :: s.o.achieved < t.o.achieved)
  }

  ghost predicate TargetSearch(profile: Profile) {
    profile.Gaming? || profile.GamingExtreme? || profile.BestOverall?
  }

  /** Highest pass at or below the threshold, lowest fail above it, nothing measured in between. */
  lemma BracketHolds(ss: seq<Sample>, threshold: nat)
    requires ThresholdLink(ss, threshold)
    ensures LowerPass(ss).Some? ==>
              && Tested(ss, LowerPass(ss).value) && LowerPass(ss).value <= threshold
              && forall s | s in ss && s.o.candidate <= threshold :: s.o.candidate <= LowerPass(ss).value
    ensures UpperFail(ss).Some? ==>
              && LowerPass(ss).Some? && Tested(ss, UpperFail(ss).value) && threshold < UpperFail(ss).value
              && forall s | s in ss && s.o.candidate > threshold :: UpperFail(ss).value <= s.o.candidate
    ensures LowerPass(ss).None? ==> forall s | s in ss :: s.o.candidate > threshold
    ensures LowerPass(ss).Some? && UpperFail(ss).None? ==> forall s | s in ss :: s.o.candidate <= threshold
  {
    BoundFacts(Passing(ss));
    assert forall s | s in ss && s.o.candidate <= threshold :: s in Passing(ss);
    if LowerPass(ss).Some? {
      var above := FailingAbove(ss, LowerPass(ss).value);
      BoundFacts(above);
      assert forall s | s in ss && s.o.candidate > threshold :: s in above;
    }
  }

  /** Both halves of a bisected bracket are at most half of it, up to 100 kbit/s of rounding. */
  lemma MidpointHalves(lower: nat, upper: nat)
    requires lower < upper <= MAX_RATE
    ensures var next := Midpoint(lower, upper);
            && lower < next
            && 2 * (upper - next) <= upper - lower
            && 2 * (next - lower) < upper - lower + 200
            && (next == upper ==> upper - lower < 200)
  {
    var middle := lower as real + (upper - lower) as real / 2.0;
    if middle < 100.0 { SmallMidpoint(lower, upper); }
  }

  /** Below 100 kbit/s the midpoint rounds to 100 kbit/s. */
  lemma SmallMidpoint(lower: nat, upper: nat)
    requires lower < upper <= MAX_RATE && lower as real + (upper - lower) as real / 2.0 < 100.0
    ensures Midpoint(lower, upper) == MinNat(100, upper)
  {}

  /** Measuring the midpoint of a bracket leaves a bracket of at most half the width, up to rounding. */
  lemma BisectionHalves(ss: seq<Sample>, threshold: nat, s: Sample)
    requires ThresholdLink(ss + [s], threshold)
    requires LowerPass(ss).Some? && UpperFail(ss).Some? && UpperFail(ss).value <= MAX_RATE
    requires var (lower, upper) := (LowerPass(ss).value, UpperFail(ss).value);
             lower < upper && s.o.candidate == Midpoint(lower, upper) < upper
    ensures var (lower, upper) := (LowerPass(ss).value, UpperFail(ss).value);
            var after := ss + [s];
            && LowerPass(after).Some? && UpperFail(after).Some?
            && lower <= LowerPass(after).value <= threshold < UpperFail(after).value <= upper
            && 2 * (UpperFail(after).value - LowerPass(after).value) < upper - lower + 200
  {
    var after := ss + [s];
    assert forall t | t in ss :: t in after;
    BracketHolds(ss, threshold);
    BracketHolds(after, threshold);
    var lower, upper := LowerPass(ss).value, UpperFail(ss).value;
    MidpointHalves(lower, upper);
    var l :| l in ss && l.o.candidate == lower;
    var u :| u in ss && u.o.candidate == upper;
    assert l in after && u in after && s in after;
  }

  // ----- the bisection as the search asks for it

  lemma BracketAsksMidpoint(input: Input, ss: seq<Sample>)
    requires Ready(input, ss) && Last(ss).m.safe && DecideQuality(input, ss).reason == BisectQualityBoundary
    ensures LowerPass(ss).Some? && UpperFail(ss).Some?
    ensures Bisects(input, ss, LowerPass(ss).value, UpperFail(ss).value)
    ensures DecideQuality(input, ss).action.Test?
    ensures DecideQuality(input, ss).next == Some(Midpoint(LowerPass(ss).value, UpperFail(ss).value))
  {
    CapacityFloorUnreachable(input, ss);
  }

  /** A request to bisect the quality boundary asks for the midpoint of the measured bracket. */
  lemma BisectAsksMidpoint(input: Input)
    requires Valid(input) && Optimize(input).value.reason == BisectQualityBoundary
    ensures var ss := Samples(input);
            && LowerPass(ss).Some? && UpperFail(ss).Some?
            && Bisects(input, ss, LowerPass(ss).value, UpperFail(ss).value)
            && Ask(input) == Some(Midpoint(LowerPass(ss).value, UpperFail(ss).value))
  {
    SamplesReady(input);
    var ss := Samples(input);
    JudgedCoherent(input, ss);
    var d := DecisionFor(input, ss);
    ConcludedReason(input, ss, d);
    AlignedReason(Conclude(input, ss, d), ReviewOptions(Conclude(input, ss, d)));
    if input.profile.VariableLink? { VariableReasons(input, ss); } else { DecideReasons(input, ss); }
    BracketAsksMidpoint(input, ss);
    DecisionSound(input, ss);
    ConcludeSound(input, ss, d);
  }

  ghost function Width(ss: seq<Sample>): int {
    if LowerPass(ss).Some? && UpperFail(ss).Some? then UpperFail(ss).value - LowerPass(ss).value else 0
  }

  lemma SamplesOfPrefix(input: Input, n: nat)
    requires Valid(input) && 1 <= n < |input.observations| && Valid(Prefix(input, n)) && Valid(Prefix(input, n + 1))
    ensures Samples(Prefix(input, n + 1)) == Samples(Prefix(input, n)) + [Samples(input)[n]]
    ensures forall s | s in Samples(Prefix(input, n + 1)) :: s in Samples(input)
  {
    var all, longer := Samples(input), Samples(Prefix(input, n + 1));
    forall i | 0 <= i < n + 1 ensures longer[i] == all[i] {}
    assert Samples(Prefix(input, n)) + [all[n]] == longer;
  }

  /** The measurement after the first `n` is at the midpoint of the bracket those left. */
  ghost predicate MidpointTurn(input: Input, n: nat) {
    && Valid(input) && 1 <= n < |input.observations| && Valid(Prefix(input, n)) && Valid(Prefix(input, n + 1))
    && var ss := Samples(Prefix(input, n));
       && LowerPass(ss).Some? && UpperFail(ss).Some?
       && Bisects(input, ss, LowerPass(ss).value, UpperFail(ss).value)
       && input.observations[n].candidate == Midpoint(LowerPass(ss).value, UpperFail(ss).value)
  }

  /** An answered bisection request is such a measurement. */
  lemma AnsweredBisection(input: Input, n: nat)
    requires Valid(input) && 1 <= n < |input.observations| && Valid(Prefix(input, n)) && Valid(Prefix(input, n + 1))
    requires Answered(Ask, input, n) && Optimize(Prefix(input, n)).value.reason == BisectQualityBoundary
    ensures MidpointTurn(input, n)
  {
    BisectAsksMidpoint(Prefix(input, n));
  }

  lemma BisectionWidth(ss: seq<Sample>, threshold: nat, s: Sample)
    requires ThresholdLink(ss + [s], threshold)
    requires LowerPass(ss).Some? && UpperFail(ss).Some? && UpperFail(ss).value <= MAX_RATE
    requires var (lower, upper) := (LowerPass(ss).value, UpperFail(ss).value);
             lower < upper && s.o.candidate == Midpoint(lower, upper) < upper
    ensures 2 * Width(ss + [s]) < Width(ss) + 200
  {
    BisectionHalves(ss, threshold, s);
  }

  /** On a threshold link it halves the bracket. */
  lemma TurnHalves(input: Input, threshold: nat, n: nat)
    requires MidpointTurn(input, n) && ThresholdLink(Samples(input), threshold)
    ensures 2 * WidthAt(input, n + 1) < WidthAt(input, n) + 200
  {
    var ss, s := Samples(Prefix(input, n)), Samples(input)[n];
    SamplesOfPrefix(input, n);
    SubLink(Samples(input), ss + [s], threshold);
    UpperWithin(Prefix(input, n));
    BisectionWidth(ss, threshold, s);
  }

  lemma SubLink(ss: seq<Sample>, part: seq<Sample>, threshold: nat)
    requires ThresholdLink(ss, threshold) && forall s | s in part :: s in ss
    ensures ThresholdLink(part, threshold)
  {}

  lemma UpperWithin(input: Input)
    requires Valid(input)
    ensures UpperFail(Samples(input)).Some? ==> UpperFail(Samples(input)).value <= MAX_RATE
  {
    SamplesReady(input);
    var ss := Samples(input);
    if LowerPass(ss).Some? { BoundFacts(FailingAbove(ss, LowerPass(ss).value)); }
  }

  ghost function Pow2(k: nat): nat { if k == 0 then 1 else 2 * Pow2(k - 1) }

  ghost predicate Halves(width: nat -> int, n: nat) { 2 * width(n + 1) < width(n) + 200 }

  ghost predicate HalvesFor(width: nat -> int, m: nat, k: nat) { forall n | m <= n < m + k :: Halves(width, n) }

  /** After `k` halvings from `m` on, the excess over 200 kbit/s is at most the starting one over `2^k`. */
  ghost predicate HalvedBy(width: nat -> int, m: nat, k: nat) {
    Pow2(k) * (width(m + k) - 200) <= width(m) - 200
  }

  /** After `k` halvings a width is within 200 kbit/s of the starting one over `2^k`. */
  lemma {:induction false} RepeatedHalving(width: nat -> int, m: nat, k: nat)
    requires HalvesFor(width, m, k)
    ensures HalvedBy(width, m, k)
  {
    if k > 0 {
      RepeatedHalving(width, m, k - 1);
      assert Halves(width, m + (k - 1));
      ScaleLe(Pow2(k - 1), 2 * (width(m + k) - 200), width(m + (k - 1)) - 200);
    }
  }

  /** The bracket left by the first `n` measurements, as a function of `n`. */
  ghost function BracketWidth(input: Input): nat -> int { (n: nat) => WidthAt(input, n) }

  ghost function WidthAt(input: Input, n: nat): int {
    if n <= |input.observations| && Valid(Prefix(input, n)) then Width(Samples(Prefix(input, n))) else 0
  }

  lemma TurnHalvesWidth(input: Input, threshold: nat, n: nat)
    requires MidpointTurn(input, n) && ThresholdLink(Samples(input), threshold)
    ensures Halves(BracketWidth(input), n)
  {
    TurnHalves(input, threshold, n);
    WidthsHalve(input, n);
  }

  lemma WidthsHalve(input: Input, n: nat)
    requires 2 * WidthAt(input, n + 1) < WidthAt(input, n) + 200
    ensures Halves(BracketWidth(input), n)
  {}

  lemma TurnsHalve(input: Input, threshold: nat, m: nat, k: nat)
    requires Valid(input) && ThresholdLink(Samples(input), threshold)
    requires forall n | m <= n < m + k :: MidpointTurn(input, n)
    ensures HalvesFor(BracketWidth(input), m, k)
  {
    forall n | m <= n < m + k ensures Halves(BracketWidth(input), n) { TurnHalvesWidth(input, threshold, n); }
  }

  ghost predicate AsksToBisect(input: Input) { Valid(input) && Optimize(input).value.reason == BisectQualityBoundary }

  /** In a closed loop every bisection request is answered at its midpoint. */
  lemma LoopBisects(input: Input, m: nat, k: nat)
    requires 1 <= m && m + k <= |input.observations| && Valid(Prefix(input, 1)) && ClosedLoop(Ask, input)
    requires Valid(input) && forall n | m <= n < m + k :: AsksToBisect(Prefix(input, n))
    ensures forall n | m <= n < m + k :: MidpointTurn(input, n)
  {
    AskIsBounded();
    forall n | 1 <= n <= |input.observations| ensures Valid(Prefix(input, n)) { LoopBounded(Ask, input, n); }
    forall n | m <= n < m + k ensures MidpointTurn(input, n) {
      assert AsksToBisect(Prefix(input, n));
      AnsweredBisection(input, n);
    }
  }

  lemma MidpointsHalveBracket(input: Input, threshold: nat, m: nat, k: nat)
    requires Valid(input) && ThresholdLink(Samples(input), threshold)
    requires forall n | m <= n < m + k :: MidpointTurn(input, n)
    ensures HalvedBy(BracketWidth(input), m, k)
  {
    TurnsHalve(input, threshold, m, k);
    RepeatedHalving(BracketWidth(input), m, k);
  }

  /** A run of `k` bisection requests, answered on a threshold link, leaves at most (width - 200) / 2^k + 200 kbit/s. */
  lemma LoopHalvesBracket(input: Input, threshold: nat, m: nat, k: nat)
    requires 1 <= m && m + k <= |input.observations| && Valid(Prefix(input, 1)) && ClosedLoop(Ask, input)
    requires Valid(input) && ThresholdLink(Samples(input), threshold)
    requires forall n | m <= n < m + k :: AsksToBisect(Prefix(input, n))
    ensures HalvedBy(BracketWidth(input), m, k)
  {
    LoopBisects(input, m, k);
    MidpointsHalveBracket(input, threshold, m, k);
  }

  lemma ScaleLe(p: nat, x: int, y: int)
    requires x <= y
    ensures p * x <= p * y
  {}

  // ----- the bounded verdict

  /** On a threshold link the best target is a measurement at the highest passing rate. */
  lemma BestTargetIsHighest(ss: seq<Sample>, threshold: nat)
    requires ThresholdLink(ss, threshold) && LowerPass(ss).Some?
    ensures BestTarget(ss).Some? && BestTarget(ss).value in ss
    ensures BestTarget(ss).value.o.candidate == LowerPass(ss).value
  {
    TargetFacts(ss);
    BracketHolds(ss, threshold);
    var t :| t in ss && t.o.candidate == LowerPass(ss).value;
    assert t in Passing(ss);
    MaxByIsMax(Passing(ss), (s: Sample) => Key2(s.o.achieved as real, -s.m.delta), t);
  }

  /** On a threshold link every measured rate is a controlled review candidate. */
  lemma ControlledEverywhere(b: ReviewBasis, threshold: nat, rate: nat)
    requires ThresholdLink(b.samples, threshold) && Tested(b.samples, rate)
    ensures CandidateAt(b, rate).Some?
    ensures var c := CandidateAt(b, rate).value;
            && c.controlled && c.Rate() == rate && c.worst in b.samples
            && exists s | s in b.samples :: s.o.candidate == rate && s.o.achieved == c.conservative
  {
    var s :| s in b.samples && s.o.candidate == rate;
    assert s in At(b.samples, rate) && s in SafeAt(b.samples, rate);
    assert Evidence(b.samples, rate) == Some((SafeAt(b.samples, rate), true));
    var low := MinBy(SafeAt(b.samples, rate), (s: Sample) => Key1(s.o.achieved as real));
    assert low.value in b.samples;
  }

  ghost predicate DelayMeansTarget(ss: seq<Sample>, target: real) {
    forall s | s in ss :: s.m.targetMet <==> s.m.delta < target
  }

  lemma HigherRateIsSlower(ss: seq<Sample>, threshold: nat, target: real, low: Sample, high: Sample)
    requires ThresholdLink(ss, threshold) && DelayMeansTarget(ss, target) && low in ss && high in ss
    requires low.o.candidate <= threshold < high.o.candidate
    ensures low.m.delta < high.m.delta
  {}

  /** The candidate at the highest passing rate is dominated by no other measured rate. */
  lemma HighestPassUndominated(b: ReviewBasis, threshold: nat, target: real, d: Candidate)
    requires ThresholdLink(b.samples, threshold) && DelayMeansTarget(b.samples, target)
    requires LowerPass(b.samples).Some? && d in Review.Candidates(b)
    ensures CandidateAt(b, LowerPass(b.samples).value).Some?
    ensures !Dominates(d, CandidateAt(b, LowerPass(b.samples).value).value)
  {
    var rate := LowerPass(b.samples).value;
    BracketHolds(b.samples, threshold);
    ControlledEverywhere(b, threshold, rate);
    CandidateListed(b, d);
    assert Tested(b.samples, d.Rate());
    ControlledEverywhere(b, threshold, d.Rate());
    var c := CandidateAt(b, rate).value;
    if d.Rate() > rate {
      HigherRateIsSlower(b.samples, threshold, target, c.worst, d.worst);
    } else if d.Rate() < rate {
      LowerRateAchievesLess(b.samples, threshold, c, d);
    }
  }

  lemma LowerRateAchievesLess(ss: seq<Sample>, threshold: nat, c: Candidate, d: Candidate)
    requires ThresholdLink(ss, threshold) && d.Rate() < c.Rate()
    requires exists s | s in ss :: s.o.candidate == c.Rate() && s.o.achieved == c.conservative
    requires exists s | s in ss :: s.o.candidate == d.Rate() && s.o.achieved == d.conservative
    ensures d.conservative < c.conservative
  {}

  lemma HighestPassOnFrontier(b: ReviewBasis, threshold: nat, target: real) returns (c: Candidate)
    requires ThresholdLink(b.samples, threshold) && DelayMeansTarget(b.samples, target)
    requires LowerPass(b.samples).Some?
    ensures c in Frontier(Review.Candidates(b)) && c.Rate() == LowerPass(b.samples).value
  {
    var rate := LowerPass(b.samples).value;
    BracketHolds(b.samples, threshold);
    ControlledEverywhere(b, threshold, rate);
    c := CandidateAt(b, rate).value;
    CandidateListed(b, c);
    forall d | d in Review.Candidates(b) ensures !Dominates(d, c) {
      HighestPassUndominated(b, threshold, target, d);
    }
  }

  lemma FirstOffered(first: Candidate, second: Option<Candidate>, third: Option<Candidate>)
    ensures var two := Offer(Offer([], Recommended, Some(first)), QualityFirst, second);
            var named := Offer(two, ThroughputFirst, third);
            named != [] && named[0].candidate == first
  {}

  lemma ChosenIsSelected(r: SearchResult, frontier: seq<Candidate>, c: Candidate)
    requires DistinctRates(frontier) && c in frontier && SelectedRate(r) == Some(c.Rate())
    ensures Choose(r, frontier) == Some(c)
  {
    var found := WithRate(frontier, c.Rate());
    assert found.Some? && found.value.Rate() == c.Rate();
  }

  /** A frontier member at the selected rate is the first review option. */
  lemma SelectedIsFirst(r: SearchResult, frontier: seq<Candidate>, c: Candidate)
    requires DistinctRates(frontier) && c in frontier && SelectedRate(r) == Some(c.Rate())
    ensures OptionsFrom(r, frontier) != [] && OptionsFrom(r, frontier)[0].candidate == c
  {
    ChosenIsSelected(r, frontier, c);
    FirstOffered(c, BestDelay(frontier), BestThroughput(frontier));
    NamedComesFirst(r, frontier);
  }

  lemma HighestPassRecommended(r: SearchResult, threshold: nat, target: real)
    requires r.Terminal()
    requires ThresholdLink(r.samples, threshold) && DelayMeansTarget(r.samples, target)
    requires LowerPass(r.samples).Some? && SelectedRate(r) == LowerPass(r.samples)
    ensures ReviewOptions(r) != []
    ensures ReviewOptions(r)[0].candidate.Rate() == LowerPass(r.samples).value
    ensures ReviewOptions(r)[0].candidate.worst in r.samples
  {
    var cs := Review.Candidates(r.Basis());
    CandidatesAtDistinct(r.Basis(), SortedDistinct(Rates(r.samples)));
    FilterDistinct(cs, (c: Candidate) => !exists d | d in cs :: Dominates(d, c));
    var c := HighestPassOnFrontier(r.Basis(), threshold, target);
    SelectedIsFirst(r, Frontier(cs), c);
    CandidateListed(r.Basis(), c);
  }

  /**
   A `MaximumTargetGradeBounded` verdict on a threshold link: the selection is a
   measurement at the highest passing rate, the lowest failing rate is above the
   threshold, and the two are at most the resolution or less than 200 kbit/s apart.
   */
  lemma BoundedVerdict(input: Input, threshold: nat)
    requires Valid(input) && TargetSearch(input.profile)
    requires ThresholdLink(Samples(input), threshold)
    requires Optimize(input).value.reason == MaximumTargetGradeBounded
    ensures NarrowAtThreshold(Optimize(input).value, threshold)
  {
    SamplesReady(input);
    var ss := Samples(input);
    assert Last(ss) in ss;
    forall s | s in ss ensures s.m.targetMet <==> s.m.delta < input.profile.TargetDelta() {
      JudgedMeaning(input, ss, s);
    }
    BoundedResult(input, ss, threshold, Decide(input, ss));
  }

  ghost predicate NarrowAtThreshold(r: SearchResult, threshold: nat) {
    && r.action.Complete?
    && r.lowerPass.Some? && r.upperFail.Some?
    && r.lowerPass.value <= threshold < r.upperFail.value
    && (r.upperFail.value - r.lowerPass.value <= r.resolution || r.upperFail.value - r.lowerPass.value < 200)
    && r.selected.Some? && r.selected.value < |r.samples|
    && r.samples[r.selected.value].o.candidate == r.lowerPass.value
    && forall s | s in r.samples && s.m.targetMet :: s.o.candidate <= r.lowerPass.value
  }

  lemma BoundedResult(input: Input, ss: seq<Sample>, threshold: nat, d: Decision)
    requires Ready(input, ss) && TargetSearch(input.profile) && d == Decide(input, ss)
    requires ThresholdLink(ss, threshold) && DelayMeansTarget(ss, input.profile.TargetDelta())
    requires Align(Conclude(input, ss, d)).reason == MaximumTargetGradeBounded
    ensures NarrowAtThreshold(Align(Conclude(input, ss, d)), threshold)
  {
    assert Last(ss) in ss;
    var c := Conclude(input, ss, d);
    ReasonKept(c, ReviewOptions(c));
    ReasonGiven(input, ss, d);
    BracketBranch(input, ss);
    BracketDone(input, ss, threshold);
    BestTargetIsHighest(ss, threshold);
    BoundedConclusion(input, ss, d);
    BoundedAligned(c, threshold, input.profile.TargetDelta());
  }

  /** What the bracket branch puts into the result before alignment. */
  lemma BoundedConclusion(input: Input, ss: seq<Sample>, d: Decision)
    requires Ready(input, ss) && TargetSearch(input.profile)
    requires d == Plain(input, ss, Complete, MaximumTargetGradeBounded, None) && BestTarget(ss).Some?
    requires BestTarget(ss).value in ss
    ensures var c := Conclude(input, ss, d);
            && c.action.Complete? && c.samples == ss
            && c.lowerPass == LowerPass(ss) && c.upperFail == UpperFail(ss)
            && c.resolution == Resolution(input.observedLow)
            && SelectedRate(c) == Some(BestTarget(ss).value.o.candidate)
  {}

  lemma BoundedAligned(c: SearchResult, threshold: nat, target: real)
    requires c.action.Complete? && Indexed(c.samples)
    requires ThresholdLink(c.samples, threshold) && DelayMeansTarget(c.samples, target)
    requires LowerPass(c.samples).Some? && c.lowerPass == LowerPass(c.samples)
    requires UpperFail(c.samples).Some? && c.upperFail == UpperFail(c.samples)
    requires c.upperFail.value - c.lowerPass.value <= c.resolution || c.upperFail.value - c.lowerPass.value < 200
    requires SelectedRate(c) == c.lowerPass
    ensures NarrowAtThreshold(Align(c), threshold)
  {
    HighestPassRecommended(c, threshold, target);
    AlignedBounded(c, threshold);
  }

  lemma AlignedBounded(c: SearchResult, threshold: nat)
    requires c.action.Complete? && Indexed(c.samples) && ThresholdLink(c.samples, threshold)
    requires LowerPass(c.samples).Some? && c.lowerPass == LowerPass(c.samples)
    requires UpperFail(c.samples).Some? && c.upperFail == UpperFail(c.samples)
    requires c.upperFail.value - c.lowerPass.value <= c.resolution || c.upperFail.value - c.lowerPass.value < 200
    requires ReviewOptions(c) != [] && ReviewOptions(c)[0].candidate.worst in c.samples
    requires ReviewOptions(c)[0].candidate.Rate() == c.lowerPass.value
    ensures NarrowAtThreshold(Align(c), threshold)
  {
    BracketHolds(c.samples, threshold);
  }

  /** The reason survives resolution and alignment only from the branch that gave it. */
  lemma ReasonKept(c: SearchResult, options: seq<ReviewOption>)
    requires AlignTo(c, options).reason == MaximumTargetGradeBounded
    ensures c.reason == MaximumTargetGradeBounded
  {}

  lemma ReasonGiven(input: Input, ss: seq<Sample>, d: Decision)
    requires Conclude(input, ss, d).reason == MaximumTargetGradeBounded
    ensures d.reason == MaximumTargetGradeBounded
  {}

  lemma BracketBranch(input: Input, ss: seq<Sample>)
    requires Ready(input, ss) && TargetSearch(input.profile)
    requires Last(ss).m.safe && Last(ss).m.reliable && Last(ss).m.resourceSafe
    requires Decide(input, ss).reason == MaximumTargetGradeBounded
    ensures LowerPass(ss).Some? && UpperFail(ss).Some?
    ensures !Bisects(input, ss, LowerPass(ss).value, UpperFail(ss).value)
    ensures Decide(input, ss) == Plain(input, ss, Complete, MaximumTargetGradeBounded, None)
  {
    CapacityFloorUnreachable(input, ss);
    if LowerPass(ss).Some? { BracketReason(input, ss, LowerPass(ss).value, UpperFail(ss)); }
  }

  lemma BracketReason(input: Input, ss: seq<Sample>, lower: nat, upper: Option<nat>)
    requires DecideBracket(input, ss, lower, upper).reason == MaximumTargetGradeBounded
    ensures upper.Some? && !Bisects(input, ss, lower, upper.value)
  {}

  /** A bracket that cannot be bisected is narrow. */
  lemma BracketDone(input: Input, ss: seq<Sample>, threshold: nat)
    requires Ready(input, ss) && ThresholdLink(ss, threshold)
    requires LowerPass(ss).Some? && UpperFail(ss).Some?
    requires !Bisects(input, ss, LowerPass(ss).value, UpperFail(ss).value)
    ensures var width := UpperFail(ss).value - LowerPass(ss).value;
            width <= Resolution(input.observedLow) || width < 200
  {
    BracketHolds(ss, threshold);
    MidpointHalves(LowerPass(ss).value, UpperFail(ss).value);
  }
}
