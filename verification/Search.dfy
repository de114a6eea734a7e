/**
 The feedback search of one Auto-Tune direction: from the measured history to a
 verdict (measure another rate, complete, fall back, or inconclusive).
 */
module Search {
  import opened Selection
  import opened SearchHistory
  import opened Review

  const MAX_SAME_CANDIDATE: nat := 3
  const PLATEAU_MINIMUM: real := 3.0

  /** What a search branch asks for, before terminal resolution and alignment. */
  datatype Decision = Decision(action: Action, reason: Reason, next: Option<nat>,
                               selected: Option<Sample>, runtimeMinimum: Option<Sample>, knee: bool)

  /** A history of at least one sample whose rates lie inside the search bounds. */
  predicate Ready(input: Input, ss: seq<Sample>) {
    && Valid(input)
    && 1 <= |ss|
    && Indexed(ss)
    && forall s | s in ss :: input.minimum <= s.o.candidate <= input.upper
  }

  function Last(ss: seq<Sample>): Sample
    requires ss != []
  {
    ss[|ss| - 1]
  }

  // ----- bounds read off the history

  function RateOf(s: Option<Sample>): Option<nat> { if s.Some? then Some(s.value.o.candidate) else None }

  function Highest(ss: seq<Sample>): Option<nat> {
    RateOf(MaxBy(ss, (s: Sample) => Key1(s.o.candidate as real)))
  }

  function Lowest(ss: seq<Sample>): Option<nat> {
    RateOf(MinBy(ss, (s: Sample) => Key1(s.o.candidate as real)))
  }

  function LowerPass(ss: seq<Sample>): Option<nat> { Highest(Passing(ss)) }

  function FailingAbove(ss: seq<Sample>, lower: nat): seq<Sample> {
    Filter(ss, (s: Sample) => s.o.candidate > lower && s.m.reliable && (!s.m.targetMet || !s.m.resourceSafe))
  }

  function UpperFail(ss: seq<Sample>): Option<nat> {
    var lower := LowerPass(ss);
    if lower.None? then None else Lowest(FailingAbove(ss, lower.value))
  }

  // ----- low realization

  predicate LowEvidence(profile: Profile, m: Metrics) {
    m.resourceSafe &&
    (profile.Fair? || m.targetMet || (profile.VariableLink? && m.manualReviewable && m.delta <= 200.0))
  }

  predicate DescentEvidence(input: Input, s: Sample) {
    if input.profile.VariableLink? && s.m.realization < TRUST_FLOOR
    then s.o.loss <= input.thresholds.lossMax && !s.o.censored
    else LowEvidence(input.profile, s.m)
  }

  /** The latest other sample at the same rate that repeats the last one's low realization. */
  function RepeatableLowPeer(input: Input, ss: seq<Sample>, s: Sample): Option<Sample> {
    var floor := input.thresholds.realizationMin;
    if s.m.realization >= floor || !LowEvidence(input.profile, s.m) then None else
    MaxBy(Filter(ss, (p: Sample) => p.index != s.index && p.o.candidate == s.o.candidate
                                    && p.m.realization < floor && LowEvidence(input.profile, p.m)
                                    && Repeatable(p.o.achieved, s.o.achieved)),
          (p: Sample) => Key1(p.index as real))
  }

  /** Clamp a proposed lower rate to the bounds; `None` when it is not below `rate`. */
  function Below(input: Input, proposed: nat, rate: nat): (r: Option<nat>)
    ensures r.Some? ==> input.minimum <= r.value < rate
  {
    var next := MinNat(MaxNat(proposed, input.minimum), if rate == 0 then 0 else rate - 1);
    if input.minimum <= next < rate then Some(next) else None
  }

  function LatencyDescent(input: Input, ss: seq<Sample>, rate: nat): (r: Option<nat>)
    ensures r.Some? ==> input.minimum <= r.value < rate && !Tested(ss, r.value)
  {
    var clean := Filter(ss, (s: Sample) => s.o.candidate == rate && s.o.loss <= input.thresholds.lossMax
                                           && !s.o.censored && s.o.achieved > 0);
    var low := MinBy(clean, (s: Sample) => Key1(s.o.achieved as real));
    if low.None? then None else
    var next := Below(input, RoundedRateUp(low.value.o.achieved as real * 0.9), rate);
    if next.Some? && !Tested(ss, next.value) then next else None
  }

  function ControlledFromLow(input: Input, ss: seq<Sample>, rate: nat): (r: Option<nat>)
    requires ValidThresholds(input.thresholds)
    ensures r.Some? ==> input.minimum <= r.value < rate
  {
    var group := At(ss, rate);
    if |group| < 2 || exists s | s in group ::
         s.m.realization >= input.thresholds.realizationMin || !DescentEvidence(input, s) then None
    else if |group| < MAX_SAME_CANDIDATE && !exists s | s in group :: Corroborated(group, s) then None
    else
      var low := MinBy(group, (s: Sample) => Key1(s.o.achieved as real));
      var target := (input.thresholds.realizationMin + 100.0) / 2.0;
      Below(input, RoundedRateUp(low.value.o.achieved as real * 100.0 / target), rate)
  }

  // ----- the latency-target and throughput-first profiles

  function ProfileSelected(input: Input, ss: seq<Sample>): Option<Sample> {
    if input.profile.Fair? then
      OrElse(BestFair(input.uncertainty, ss),
             MaxBy(Filter(ss, (s: Sample) => s.m.resourceSafe), (s: Sample) => Key1(s.o.achieved as real)))
    else BestSafe(input, ss)
  }

  function Plain(input: Input, ss: seq<Sample>, action: Action, reason: Reason, next: Option<nat>): Decision {
    Decision(action, reason, next, ProfileSelected(input, ss), None, false)
  }

  predicate MayRepeat(input: Input, ss: seq<Sample>)
    requires ss != []
  {
    Count(ss, Last(ss).o.candidate) < MAX_SAME_CANDIDATE && |ss| < input.maxAttempts
  }

  function DecideUnreliable(input: Input, ss: seq<Sample>): Decision
    requires Ready(input, ss)
  {
    DecideRealization(input, ss, ControlledFromLow(input, ss, Last(ss).o.candidate))
  }

  /** Realization outside its band, given the rate that a low one points to. */
  function DecideRealization(input: Input, ss: seq<Sample>, controlled: Option<nat>): Decision
    requires Ready(input, ss)
    requires controlled.Some? ==> input.minimum <= controlled.value < Last(ss).o.candidate
  {
    var last := Last(ss);
    var rate := last.o.candidate;
    var selected := ProfileSelected(input, ss);
    if last.m.realization > input.thresholds.realizationMax then
      if MayRepeat(input, ss) then Plain(input, ss, Test, RepeatUnreliableRealization, Some(rate))
      else Plain(input, ss, Inconclusive, RepeatedRealizationUnreliable, None)
    else if |ss| >= input.maxAttempts && selected.Some? && selected.value.m.safe then
      Plain(input, ss, if input.profile.Fair? || selected.value.m.targetMet then Complete else Fallback,
            AttemptLimitControlled, None)
    else DecideLow(input, ss, controlled)
  }

  /** Low realization: repeat it, step below it, or measure the rate it points to. */
  function DecideLow(input: Input, ss: seq<Sample>, controlled: Option<nat>): Decision
    requires Ready(input, ss)
    requires controlled.Some? ==> input.minimum <= controlled.value < Last(ss).o.candidate
  {
    var rate := Last(ss).o.candidate;
    if controlled.Some? then DecideControlled(input, ss, controlled.value)
    else if MayRepeat(input, ss) then Plain(input, ss, Test, RepeatLowRealization, Some(rate))
    else
      var descent := LatencyDescent(input, ss, rate);
      if input.profile.LatencyFirst() && |ss| < input.maxAttempts && descent.Some?
      then Plain(input, ss, Test, LatencyFirstDescent, descent)
      else Plain(input, ss, Inconclusive, LowRealizationNotRepeatable, None)
  }

  function DecideControlled(input: Input, ss: seq<Sample>, controlled: nat): Decision
    requires Ready(input, ss) && controlled < Last(ss).o.candidate
  {
    var rate := Last(ss).o.candidate;
    var safe := SafeAt(ss, controlled);
    if !Tested(ss, controlled) && |ss| < input.maxAttempts then
      Plain(input, ss, Test,
            if RepeatableLowPeer(input, ss, Last(ss)).Some? then LowerToEstablishControl
            else LowerVariableToEstablishControl, Some(controlled))
    else if safe == [] then Plain(input, ss, Inconclusive, UnableToEstablishControl, None)
    else
      var next := Midpoint(controlled, rate);
      if rate - controlled > Resolution(input.observedLow) && |ss| < input.maxAttempts
         && controlled < next < rate && !Tested(ss, next)
      then Plain(input, ss, Test, BisectControlledBoundary, Some(next))
      else Plain(input, ss, if input.profile.Fair? || safe[0].m.targetMet then Complete else Fallback,
                 MaximumControlledBounded, None)
  }

  function DecideAtLimit(input: Input, ss: seq<Sample>): Decision {
    var selected := ProfileSelected(input, ss);
    if selected.None? then Plain(input, ss, Inconclusive, AttemptLimitWithoutSafe, None)
    else if selected.value.m.safe && (input.profile.Fair? || selected.value.m.targetMet)
    then Plain(input, ss, Complete, AttemptLimit, None)
    else Plain(input, ss, Fallback, AttemptLimit, None)
  }

  /** The rate at which the last realization would reach the retention floor; an infinite quotient saturates. */
  function RequiredForFloor(input: Input, last: Sample): nat {
    var share := last.m.realization / 100.0;
    if share <= 0.0 then MAX_RATE
    else RoundedRateUp(input.observedLow as real * (input.thresholds.retentionMin / 100.0) / share)
  }

  function DecideFair(input: Input, ss: seq<Sample>): Decision
    requires Ready(input, ss)
  {
    var highestSafe := Highest(Safe(ss));
    var lowestUnsafe := if highestSafe.None? then None
                        else Lowest(Filter(ss, (s: Sample) => s.o.candidate > highestSafe.value && !s.m.safe));
    DecideThroughput(input, ss, RequiredForFloor(input, Last(ss)), highestSafe, lowestUnsafe,
                     ProfileSelected(input, ss))
  }

  function DecideThroughput(input: Input, ss: seq<Sample>, required: nat, highestSafe: Option<nat>,
                            lowestUnsafe: Option<nat>, selected: Option<Sample>): Decision
    requires ss != []
  {
    var last := Last(ss);
    if !last.m.safe && last.m.resourceSafe
       && last.o.candidate < required <= input.upper && !Tested(ss, required)
    then Decision(Test, RaiseTowardThroughputFloor, Some(required), selected, None, false)
    else if highestSafe.Some? && lowestUnsafe.Some? && Bisects(input, ss, highestSafe.value, lowestUnsafe.value)
    then Decision(Test, BisectThroughputBoundary, Some(Midpoint(highestSafe.value, lowestUnsafe.value)), selected,
        None, false)
    else if !Tested(ss, input.upper) then Decision(Test, TestThroughputUpper, Some(input.upper), selected, None, false)
    else if selected.None? then Decision(Inconclusive, ThroughputNoSafe, None, None, None, false)
    else Decision(if selected.value.m.safe then Complete else Fallback, ThroughputBounded, None, selected, None, false)
  }

  /** The bracket is wider than the resolution and its rounded midpoint is new and strictly inside. */
  predicate Bisects(input: Input, ss: seq<Sample>, lower: nat, upper: nat) {
    && lower < upper
    && upper - lower > Resolution(input.observedLow)
    && lower < Midpoint(lower, upper) < upper
    && !Tested(ss, Midpoint(lower, upper))
  }

  /** A last measurement that meets the target without being safe: raise the rate to the retention floor. */
  function DecideCapacityFloor(input: Input, ss: seq<Sample>): Decision
    requires Ready(input, ss)
  {
    var required := RequiredForFloor(input, Last(ss));
    if Last(ss).o.candidate < required <= input.upper && !Tested(ss, required)
    then Plain(input, ss, Test, RaiseToCapacityFloor, Some(required))
    else if !Tested(ss, input.upper) then Plain(input, ss, Test, TestUpperForCapacityFloor, Some(input.upper))
    else Plain(input, ss, Fallback, TargetConflictsWithCapacityFloor, None)
  }

  /** Bisect between the highest pass and the lowest fail above it, or confirm the upper bound. */
  function DecideBracket(input: Input, ss: seq<Sample>, lower: nat, upper: Option<nat>): Decision {
    if upper.Some? then
      if Bisects(input, ss, lower, upper.value)
      then Plain(input, ss, Test, BisectQualityBoundary, Some(Midpoint(lower, upper.value)))
      else Plain(input, ss, Complete, MaximumTargetGradeBounded, None)
    else if lower < input.upper && !Tested(ss, input.upper)
    then Plain(input, ss, Test, TestQualityUpper, Some(input.upper))
    else Plain(input, ss, Complete, MaximumTargetGradeConfirmed, None)
  }

  function DecideQuality(input: Input, ss: seq<Sample>): Decision
    requires Ready(input, ss)
  {
    var last := Last(ss);
    if last.m.resourceSafe && last.m.targetMet && !last.m.safe then DecideCapacityFloor(input, ss)
    else if LowerPass(ss).Some? then DecideBracket(input, ss, LowerPass(ss).value, UpperFail(ss))
    else DecideDescent(input, ss)
  }

  /** No passing rate yet: halve towards the exploration minimum. */
  function DecideDescent(input: Input, ss: seq<Sample>): Decision
    requires Ready(input, ss)
  {
    if !Tested(ss, input.minimum) then
      var lowest := Lowest(ss).value;
      var middle := Midpoint(input.minimum, lowest);
      Plain(input, ss, Test, SearchLowerQuality, Some(if middle >= lowest then input.minimum else middle))
    else if ProfileSelected(input, ss).None? then Plain(input, ss, Inconclusive, NoSafeCandidate, None)
    else Plain(input, ss, Fallback, TargetUnreachable, None)
  }

  function Decide(input: Input, ss: seq<Sample>): Decision
    requires Ready(input, ss)
  {
    var last := Last(ss);
    if !last.m.reliable then DecideUnreliable(input, ss)
    else if !last.m.resourceSafe then
      if MayRepeat(input, ss) then Plain(input, ss, Test, RepeatResourceUnsafe, Some(last.o.candidate))
      else Plain(input, ss, Inconclusive, ResourceSafetyNotResolved, None)
    else if |ss| >= input.maxAttempts then DecideAtLimit(input, ss)
    else if input.profile.Fair? then DecideFair(input, ss)
    else DecideQuality(input, ss)
  }

  // ----- the Variable Link profile

  datatype Aggregate = Aggregate(rate: nat, representative: Sample, median: real, repeats: nat, spread: real)

  lemma ScaledWithin(share: real, whole: real)
    requires 0.0 <= share <= 1.0 && 0.0 <= whole
    ensures 0.0 <= share * whole <= whole
  {}

  lemma Straddles(position: real, last: nat)
    requires 0.0 <= position <= last as real
    ensures 0 <= position.Floor <= Ceil(position) <= last
  {}

  /** Linear interpolation between order statistics. */
  function Percentile(sorted: seq<real>, share: real): real
    requires sorted != []
  {
    ScaledWithin(Clamp(share, 0.0, 1.0), (|sorted| - 1) as real);
    PercentileAt(sorted, Clamp(share, 0.0, 1.0) * (|sorted| - 1) as real)
  }

  function PercentileAt(sorted: seq<real>, position: real): real
    requires sorted != [] && 0.0 <= position <= (|sorted| - 1) as real
  {
    Straddles(position, |sorted| - 1);
    var lower, upper := position.Floor, Ceil(position);
    if |sorted| == 1 then sorted[0]
    else if lower == upper then sorted[lower]
    else
      var weight := position - lower as real;
      sorted[lower] * (1.0 - weight) + sorted[upper] * weight
  }

  /** The median: the middle value, or the mean of the two middle ones. */
  lemma MedianIsMiddle(sorted: seq<real>)
    requires sorted != []
    ensures var n := |sorted|;
            Percentile(sorted, 0.5)
            == if n % 2 == 1 then sorted[n / 2] else (sorted[n / 2 - 1] + sorted[n / 2]) / 2.0
  {
    var n := |sorted|;
    if n % 2 == 1 {
      assert 0.5 * (n - 1) as real == (n / 2) as real;
      WholePosition(sorted, n / 2);
    } else {
      assert 0.5 * (n - 1) as real == (n / 2 - 1) as real + 0.5;
      HalfPosition(sorted, n / 2 - 1);
    }
  }

  lemma WholePosition(sorted: seq<real>, k: nat)
    requires k < |sorted|
    ensures PercentileAt(sorted, k as real) == sorted[k]
  {}

  lemma HalfPosition(sorted: seq<real>, k: nat)
    requires k + 1 < |sorted|
    ensures PercentileAt(sorted, k as real + 0.5) == (sorted[k] + sorted[k + 1]) / 2.0
  {
    assert (k as real + 0.5).Floor == k && Ceil(k as real + 0.5) == k + 1;
  }

  function Deltas(ss: seq<Sample>): (r: seq<real>)
    ensures |r| == |ss|
  {
    seq(|ss|, i requires 0 <= i < |ss| => ss[i].m.delta)
  }

  function AggregateAt(ss: seq<Sample>, rate: nat): (a: Option<Aggregate>)
    ensures a.Some? <==> SafeAt(ss, rate) != []
    ensures a.Some? ==> a.value.rate == rate && a.value.representative in SafeAt(ss, rate)
  {
    var safe := SafeAt(ss, rate);
    if safe == [] then None else
    var sorted := SortReals(Deltas(safe));
    var median := Percentile(sorted, 0.5);
    var representative := MinBy(safe, (s: Sample) => Key1(Abs(s.m.delta - median)));
    Some(Aggregate(rate, representative.value, median, |safe|, sorted[|sorted| - 1] - sorted[0]))
  }

  /** Of the safe delays at a rate: how many, how far apart, their median, and the measurement nearest to it. */
  lemma AggregateMeaning(ss: seq<Sample>, rate: nat)
    requires SafeAt(ss, rate) != []
    ensures var a, safe := AggregateAt(ss, rate).value, SafeAt(ss, rate);
            var sorted := SortReals(Deltas(safe));
            && Ascending(sorted) && multiset(sorted) == multiset(Deltas(safe)) && a.repeats == |safe|
            && a.spread == sorted[|safe| - 1] - sorted[0]
            && a.median == (if |safe| % 2 == 1 then sorted[|safe| / 2]
                            else (sorted[|safe| / 2 - 1] + sorted[|safe| / 2]) / 2.0)
            && (forall s | s in safe :: Abs(a.representative.m.delta - a.median) <= Abs(s.m.delta - a.median))
  {
    var a, safe := AggregateAt(ss, rate).value, SafeAt(ss, rate);
    SortRealsFacts(Deltas(safe));
    MedianIsMiddle(SortReals(Deltas(safe)));
    forall s | s in safe ensures Abs(a.representative.m.delta - a.median) <= Abs(s.m.delta - a.median) {
      MinByIsMin(safe, (s: Sample) => Key1(Abs(s.m.delta - a.median)), s);
    }
  }

  /** One aggregate per rate with a safe sample, in decreasing rate order. */
  function Aggregates(ss: seq<Sample>, rates: seq<nat>): (r: seq<Aggregate>)
    ensures forall a | a in r :: a.rate in rates && AggregateAt(ss, a.rate) == Some(a)
    ensures forall rate | rate in rates && SafeAt(ss, rate) != [] :: exists a | a in r :: a.rate == rate
  {
    if rates == [] then [] else
    var head := AggregateAt(ss, rates[|rates| - 1]);
    var rest := Aggregates(ss, rates[..|rates| - 1]);
    if head.Some? then
      assert ([head.value] + rest)[0] == head.value;
      [head.value] + rest
    else rest
  }

  function Threshold(left: real, right: real, uncertainty: real): real {
    MaxReal(PLATEAU_MINIMUM, MaxReal(left, right) * (uncertainty / 100.0))
  }

  predicate Flat(a: Aggregate, b: Aggregate, uncertainty: real) {
    a.median - b.median <= Threshold(a.median, b.median, uncertainty)
  }

  /** The next exact rate of the fixed-step descent; `None` at the exploration floor. */
  function FixedStep(observedLow: nat, minimum: nat, current: nat): (r: Option<nat>)
    requires minimum <= current
    ensures r.Some? ==> minimum <= r.value < current
  {
    var step := RoundedRateUp(observedLow as real * 15.0 / 100.0);
    var next := MaxNat(if current < step then 0 else current - step, minimum);
    if next < current then Some(next) else None
  }

  function Variable(action: Action, reason: Reason, next: Option<nat>, selected: Option<Sample>): Decision {
    Decision(action, reason, next, selected, selected, false)
  }

  function DecideVariable(input: Input, ss: seq<Sample>): Decision
    requires Ready(input, ss)
  {
    var aggregates := Aggregates(ss, SortedDistinct(Rates(ss)));
    DecideVariableOn(input, ss, NoisyLast(Last(ss).o.candidate, aggregates), DecideCurve(input, ss, aggregates))
  }

  /** The branches on the last measurement; `curve` is the decision on the measured delay curve. */
  function DecideVariableOn(input: Input, ss: seq<Sample>, noisy: bool, curve: Decision): Decision
    requires Ready(input, ss)
  {
    var last := Last(ss);
    if !last.m.resourceSafe then DecideVariableUnsafe(input, ss)
    else if !last.m.reliable then DecideVariableUnreliable(input, ss)
    else if noisy then
      if MayRepeat(input, ss) then Variable(Test, RepeatNoisyVariable, Some(last.o.candidate), None)
      else if BestVariableCeiling(ss).Some?
      then Variable(Fallback, NoisySafeReview, None, BestVariableCeiling(ss))
      else Variable(Inconclusive, NoisyDidNotConverge, None, None)
    else curve
  }

  function DecideVariableUnsafe(input: Input, ss: seq<Sample>): Decision
    requires Ready(input, ss)
  {
    var rate := Last(ss).o.candidate;
    assert Last(ss) in ss;
    var next := OrElse(ControlledFromLow(input, ss, rate), FixedStep(input.observedLow, input.minimum, rate));
    if Count(ss, rate) >= 2 && |ss| < input.maxAttempts && next.Some? && !Tested(ss, next.value)
    then Variable(Test, LowerAfterResourceLimit, next, None)
    else if MayRepeat(input, ss) then Variable(Test, RepeatResourceUnsafeVariable, Some(rate), None)
    else Variable(Inconclusive, VariableResourceInconclusive, None, None)
  }

  function DecideVariableUnreliable(input: Input, ss: seq<Sample>): Decision
    requires Ready(input, ss)
  {
    DecideVariableLow(input, ss, ControlledFromLow(input, ss, Last(ss).o.candidate), BestLowRealization(ss))
  }

  function DecideVariableLow(input: Input, ss: seq<Sample>, controlled: Option<nat>, low: Option<Sample>): Decision
    requires ss != []
  {
    if controlled.Some? && !Tested(ss, controlled.value) && |ss| < input.maxAttempts
    then Variable(Test, LowerVariableToEstablishControl, controlled, None)
    else if LowEvidence(input.profile, Last(ss).m) && low.Some?
    then Variable(Fallback, BoundedLowRealizationReview, None, low)
    else if MayRepeat(input, ss) then Variable(Test, RepeatUncontrolledVariable, Some(Last(ss).o.candidate), None)
    else Variable(Inconclusive, VariableRealizationInconclusive, None, None)
  }

  predicate NoisyLast(rate: nat, aggregates: seq<Aggregate>) {
    exists a | a in aggregates :: a.rate == rate && a.spread > MaxReal(a.median * 0.10, PLATEAU_MINIMUM * 2.0)
  }

  /** The lowest rate is clearly worse than the one above it. */
  predicate Rises(aggregates: seq<Aggregate>, uncertainty: real) {
    var n := |aggregates|;
    n >= 2 && aggregates[n - 1].median > aggregates[n - 2].median
              + Threshold(aggregates[n - 2].median, aggregates[n - 1].median, uncertainty)
  }

  /** Neither of the last two steps down improved the delay. */
  predicate Plateau(aggregates: seq<Aggregate>, uncertainty: real) {
    var n := |aggregates|;
    n >= 3 && Flat(aggregates[n - 3], aggregates[n - 2], uncertainty)
           && Flat(aggregates[n - 2], aggregates[n - 1], uncertainty)
  }

  predicate PriorUseful(aggregates: seq<Aggregate>, uncertainty: real) {
    exists i | 0 <= i < |aggregates| - 3 :: !Flat(aggregates[i], aggregates[i + 1], uncertainty)
  }

  function DecideCurve(input: Input, ss: seq<Sample>, aggregates: seq<Aggregate>): Decision
    requires Ready(input, ss)
    requires forall a | a in aggregates :: input.minimum <= a.rate <= input.upper
  {
    DecideCurveOn(input, ss, aggregates, Rises(aggregates, input.uncertainty),
                  Plateau(aggregates, input.uncertainty), PriorUseful(aggregates, input.uncertainty))
  }

  function DecideCurveOn(input: Input, ss: seq<Sample>, aggregates: seq<Aggregate>,
                         rises: bool, plateau: bool, priorUseful: bool): Decision
    requires Ready(input, ss)
    requires forall a | a in aggregates :: input.minimum <= a.rate <= input.upper
    requires rises ==> |aggregates| >= 2
    requires plateau ==> |aggregates| >= 3
  {
    var n := |aggregates|;
    if rises then DecideRise(input, ss, aggregates[n - 1])
    else if plateau then DecidePlateau(input, ss, aggregates[n - 3], priorUseful)
    else
      assert Last(ss) in ss;
      DecideStep(input, ss, if n > 0 then aggregates[n - 1].rate else Last(ss).o.candidate)
  }

  /** Delay rose on the way down: repeat the lowest rate until it has three safe measurements. */
  function DecideRise(input: Input, ss: seq<Sample>, lowest: Aggregate): Decision {
    if lowest.repeats < MAX_SAME_CANDIDATE && |ss| < input.maxAttempts
    then Variable(Test, RepeatNonmonotonicVariable, Some(lowest.rate), None)
    else if BestVariableCeiling(ss).Some?
    then Variable(Fallback, NoisySafeReview, None, BestVariableCeiling(ss))
    else Variable(Inconclusive, NonmonotonicAfterRetries, None, None)
  }

  /** Descend one fixed step below the lowest measured rate, down to the exploration floor. */
  function DecideStep(input: Input, ss: seq<Sample>, lowest: nat): Decision
    requires input.minimum <= lowest
  {
    if lowest <= input.minimum then
      if BestNoCakeEffect(ss).Some? then Variable(Fallback, FloorReached, None, BestNoCakeEffect(ss))
      else Variable(Inconclusive, FloorReachedWithoutKnee, None, None)
    else if |ss| >= input.maxAttempts then Variable(Inconclusive, AttemptLimitBeforeKnee, None, None)
    else
      var next := FixedStep(input.observedLow, input.minimum, lowest);
      if next.None? || Tested(ss, next.value) then Variable(Inconclusive, VariableCannotProgress, None, None)
      else Variable(Test, DescendFixedStep, next, None)
  }

  /** The last two steps down no longer help: either a measured knee, or a queue outside CAKE. */
  function DecidePlateau(input: Input, ss: seq<Sample>, knee: Aggregate, priorUseful: bool): Decision {
    if priorUseful then DecideKnee(knee, BestTarget(ss), BestBalanced(ss))
    else if BestNoCakeEffect(ss).Some? then Variable(Fallback, QueueOutsideCake, None, BestNoCakeEffect(ss))
    else Variable(Inconclusive, QueueOutsideCakeTargetUnmet, None, None)
  }

  function DecideKnee(knee: Aggregate, target: Option<Sample>, balanced: Option<Sample>): Decision {
    var selected := OrElse(AtOrAbove(target, knee.rate),
                           OrElse(AtOrAbove(balanced, knee.rate), Some(knee.representative)));
    Decision(if selected.value.m.targetMet && selected.value.m.capacityMet then Complete else Fallback,
             MeasuredKnee, None, selected, Some(knee.representative), true)
  }

  function AtOrAbove(s: Option<Sample>, rate: nat): Option<Sample> {
    if s.Some? && s.value.o.candidate >= rate then s else None
  }

  // ----- terminal resolution

  /** An inconclusive decision falls back on safe, then low-realization, then censored evidence. */
  function ResolveWith(d: Decision, best: Option<Sample>, low: Option<Sample>, censored: Option<Sample>)
    : (Action, Option<Sample>, Reason)
  {
    var kept := if d.selected.Some? && d.selected.value.m.safe then d.selected else best;
    if !d.action.Inconclusive? then (d.action, d.selected, d.reason)
    else if kept.Some? then (Fallback, kept, d.reason)
    else if low.Some? then (Fallback, low, BoundedLowRealizationReview)
    else if censored.Some? then (Fallback, censored, CensoredReview)
    else (Inconclusive, None, d.reason)
  }

  function Resolve(input: Input, ss: seq<Sample>, d: Decision): (Action, Option<Sample>, Reason) {
    ResolveWith(d, BestSafe(input, ss), BestLowRealization(ss), BestCensored(ss))
  }

  function LowestPassing(ss: seq<Sample>): Option<Sample> {
    MinBy(Passing(ss), (s: Sample) => Key1(s.o.candidate as real))
  }

  function PassingAggregates(aggregates: seq<Aggregate>): Option<nat> {
    var passing := Filter(aggregates, (a: Aggregate) => a.representative.m.targetMet);
    var top := MaxBy(passing, (a: Aggregate) => Key1(a.rate as real));
    if top.Some? then Some(top.value.rate) else None
  }

  /** The result before its selection is aligned with the review set. */
  function Conclude(input: Input, ss: seq<Sample>, d: Decision): SearchResult {
    var (action, selected, reason) := Resolve(input, ss, d);
    var variable := input.profile.VariableLink?;
    SearchResult(input.profile, input.observedLow, action, reason, d.next, Index(selected),
                 if variable then PassingAggregates(Aggregates(ss, SortedDistinct(Rates(ss)))) else LowerPass(ss),
                 if variable then None else UpperFail(ss),
                 Resolution(input.observedLow), input.maxAttempts, ss, input.minimum,
                 if variable then (if d.knee then Index(d.runtimeMinimum) else None)
                 else if input.profile.LatencyFirst() && (action.Complete? || action.Fallback?)
                 then Index(LowestPassing(ss)) else None,
                 d.knee)
  }

  function DecisionFor(input: Input, ss: seq<Sample>): Decision
    requires Ready(input, ss)
  {
    if input.profile.VariableLink? then DecideVariable(input, ss) else Decide(input, ss)
  }

  function OptimizeSamples(input: Input, ss: seq<Sample>): SearchResult
    requires Ready(input, ss)
  {
    Align(Conclude(input, ss, DecisionFor(input, ss)))
  }

  lemma SamplesReady(input: Input)
    requires Valid(input)
    ensures Ready(input, Samples(input))
  {
    var ss := Samples(input);
    forall i | 0 <= i < |ss| ensures ss[i].index == i { assert JudgedAt(input, ss, i); }
    forall s | s in ss ensures input.minimum <= s.o.candidate <= input.upper {
      var i :| 0 <= i < |ss| && ss[i] == s;
      assert ValidObservation(input, input.observations[i]);
    }
  }

  function Optimize(input: Input): Result<SearchResult> {
    if !Valid(input) then Err else
    SamplesReady(input);
    Ok(OptimizeSamples(input, Samples(input)))
  }

  // ----- ending a search at its last measured boundary

  /** Every sample at the rate shows CAKE tracking a physical bottleneck below the configured rate. */
  predicate CapacityLimited(input: Input, s: Sample) {
    var t := input.thresholds;
    && !s.o.censored && s.m.resourceSafe && s.m.targetMet
    && s.o.cpu <= t.cpuMax
    && s.m.realization < t.realizationMin && s.m.realization <= t.realizationMax
    && input.minimum <= s.o.realized
    && s.o.achieved > 0
    && t.realizationMin * s.o.achieved as real <= s.o.realized as real * 100.0
    && s.o.realized as real * 100.0 <= t.realizationMax * s.o.achieved as real
  }

  /** Another sample of `group` repeats both what this one achieved and what it realized. */
  predicate CorroboratedBoth(group: seq<Sample>, s: Sample) {
    exists p | p in group :: RepeatBoth(s, p)
  }

  predicate RepeatBoth(a: Sample, b: Sample) {
    b.index != a.index && Repeatable(a.o.achieved, b.o.achieved) && Repeatable(a.o.realized, b.o.realized)
  }

  function CapacityGroupAt(input: Input, ss: seq<Sample>, rate: nat): (r: Option<seq<Sample>>)
    ensures r.Some? ==> r.value != [] && forall s | s in r.value :: s in ss && s.o.candidate == rate
  {
    var group := At(ss, rate);
    if |group| < 2 || rate <= input.minimum || exists s | s in group :: !CapacityLimited(input, s) then None else
    var repeatable := Filter(group, (s: Sample) => CorroboratedBoth(group, s));
    if |repeatable| < 2 then None else Some(repeatable)
  }

  function CapacityGroups(input: Input, ss: seq<Sample>, rates: seq<nat>): (r: seq<seq<Sample>>)
    ensures forall g | g in r :: g != [] && forall s | s in g :: s in ss
    ensures r == [] <==> forall rate | rate in rates :: CapacityGroupAt(input, ss, rate).None?
  {
    if rates == [] then [] else
    var rest := CapacityGroups(input, ss, rates[..|rates| - 1]);
    var g := CapacityGroupAt(input, ss, rates[|rates| - 1]);
    if g.Some? then rest + [g.value] else rest
  }

  function GroupKey(g: seq<Sample>): Key {
    var low := MinBy(g, (s: Sample) => Key1(s.o.achieved as real));
    if low.None? then Key1(0.0) else Key2(low.value.o.achieved as real, g[0].o.candidate as real)
  }

  function CapacityGroup(input: Input, ss: seq<Sample>): Option<seq<Sample>> {
    if !input.profile.VariableLink? then None
    else MaxBy(CapacityGroups(input, ss, SortedDistinct(Rates(ss))), GroupKey)
  }

  function Mark(ss: seq<Sample>, group: seq<Sample>): (r: seq<Sample>)
    ensures |r| == |ss|
    ensures forall i | 0 <= i < |ss| ::
              r[i] == if ss[i] in group then ss[i].(m := ss[i].m.(manualReviewable := true)) else ss[i]
  {
    seq(|ss|, i requires 0 <= i < |ss| =>
      if ss[i] in group then ss[i].(m := ss[i].m.(manualReviewable := true)) else ss[i])
  }

  function Boundary(ss: seq<Sample>): Decision { Decision(Inconclusive, MeasuredBoundary, None, None, None, false) }

  /** The boundary verdict on an unfinished search, before alignment. */
  function ConcludeBoundary(input: Input, r: SearchResult): SearchResult {
    var ss := r.samples;
    var (action, selected, _) := Resolve(input, ss, Boundary(ss));
    var group := CapacityGroup(input, ss);
    if action.Inconclusive? && group.Some? then
      var worst := MaxBy(group.value, (s: Sample) => Key2(s.m.delta, -(s.o.achieved as real)));
      r.(action := Fallback, reason := PhysicalCapacityReview, next := None, selected := Index(worst),
         samples := Mark(ss, group.value), runtimeMinimum := None)
    else
      r.(action := action, reason := MeasuredBoundary, next := None, selected := Index(selected),
         runtimeMinimum := if input.profile.LatencyFirst() && action.Fallback? then Index(LowestPassing(ss)) else None)
  }

  function TerminateFrom(input: Input, optimized: SearchResult): SearchResult {
    if optimized.Terminal() then optimized else Align(ConcludeBoundary(input, optimized))
  }

  function Terminate(input: Input): Result<SearchResult> {
    var optimized := Optimize(input);
    if optimized.Err? then Err else Ok(TerminateFrom(input, optimized.value))
  }
}
