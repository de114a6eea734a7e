/**
 Where the search steps to after a measurement that was not controlled, and when
 a decision counts as complete: each stated on the measurements themselves.
 */
module SearchSteps {
  import opened Selection
  import opened SearchHistory
  import opened Review
  import opened Search
  import opened SearchTheorems

  // ----- the rate that repeated low realization points to

  /** Two different measurements of a group repeat each other. */
  ghost predicate SomeRepeat(group: seq<Sample>) {
    exists s, peer | s in group && peer in group :: peer.index != s.index && Repeatable(s.o.achieved, peer.o.achieved)
  }

  /** Twice or more, always below the realization floor with usable evidence, and three times or repeating. */
  ghost predicate LowRepeatedly(input: Input, group: seq<Sample>) {
    && |group| >= 2 && (|group| >= 3 || SomeRepeat(group))
    && forall s | s in group :: s.m.realization < input.thresholds.realizationMin && DescentEvidence(input, s)
  }

  /** The lowest hundred that would carry a rate at a share, kept at the minimum or above and below the rate. */
  ghost predicate Carries(minimum: nat, rate: nat, achieved: real, share: real, next: nat) {
    && minimum <= next < rate
    && (next < rate - 1 ==> achieved <= next as real * share)
    && (next > minimum ==> (next as real - 100.0) * share < achieved)
    && (minimum < next < rate - 1 ==> next % 100 == 0)
  }

  lemma RoundedUpMeans(x: real)
    requires x > 0.0
    ensures var q := RoundedRateUp(x);
            q as real - 100.0 < x && (q < MAX_RATE ==> x <= q as real && q % 100 == 0)
  {}

  lemma ProportionMeans(achieved: real, share: real, next: real)
    requires share > 0.0
    ensures achieved / share <= next <==> achieved <= next * share
    ensures next < achieved / share <==> next * share < achieved
  {
    ShareAtLeast(achieved, share, next);
  }

  lemma BelowMeans(input: Input, achieved: real, share: real, rate: nat)
    requires share > 0.0 && achieved / share > 0.0 && 1 <= rate <= MAX_RATE
    ensures var r := Below(input, RoundedRateUp(achieved / share), rate);
            && (r.Some? <==> input.minimum < rate)
            && (r.Some? ==> Carries(input.minimum, rate, achieved, share, r.value))
  {
    var r := Below(input, RoundedRateUp(achieved / share), rate);
    if r.Some? {
      RoundedUpMeans(achieved / share);
      ProportionMeans(achieved, share, r.value as real);
      ProportionMeans(achieved, share, r.value as real - 100.0);
    }
  }

  /** The branches of the source, on a group of measurements at one rate. */
  lemma LowGroup(input: Input, group: seq<Sample>)
    ensures LowRepeatedly(input, group) <==>
            && |group| >= 2
            && !(exists s | s in group ::
                   s.m.realization >= input.thresholds.realizationMin || !DescentEvidence(input, s))
            && !(|group| < MAX_SAME_CANDIDATE && !exists s | s in group :: Corroborated(group, s))
  {
    if |group| < 3 && SomeRepeat(group) {
      var s, peer :| s in group && peer in group && peer.index != s.index && Repeatable(s.o.achieved, peer.o.achieved);
      assert Corroborated(group, s);
    }
    if s :| s in group && Corroborated(group, s) {
      var peer :| peer in group && peer.index != s.index && Repeatable(s.o.achieved, peer.o.achieved);
    }
  }

  /** The least achieving measurement of a group, if there is any. */
  ghost predicate LeastOf(group: seq<Sample>, low: Option<Sample>) {
    group != [] ==> low.Some? && low.value in group && forall s | s in group :: low.value.o.achieved <= s.o.achieved
  }

  ghost function Share(input: Input): real { (input.thresholds.realizationMin + 100.0) / 2.0 }

  /** The search lowers to that rate exactly after such repeated low realization. */
  lemma ControlledMeans(input: Input, ss: seq<Sample>, rate: nat, low: Option<Sample>)
    requires Valid(input) && 1 <= rate <= MAX_RATE && LeastOf(At(ss, rate), low)
    requires forall s | s in ss :: s.o.achieved > 0
    ensures var r := ControlledFromLow(input, ss, rate);
            && (r.Some? <==> LowRepeatedly(input, At(ss, rate)) && input.minimum < rate)
            && (r.Some? ==>
                  && low.Some?
                  && Carries(input.minimum, rate, low.value.o.achieved as real * 100.0, Share(input), r.value))
  {
    ControlledIs(input, ss, rate, low);
    if LowRepeatedly(input, At(ss, rate)) {
      var achieved := low.value.o.achieved as real * 100.0;
      ProportionMeans(achieved, Share(input), 0.0);
      BelowMeans(input, achieved, Share(input), rate);
    }
  }

  lemma ControlledIs(input: Input, ss: seq<Sample>, rate: nat, low: Option<Sample>)
    requires ValidThresholds(input.thresholds) && LeastOf(At(ss, rate), low)
    ensures !LowRepeatedly(input, At(ss, rate)) ==> ControlledFromLow(input, ss, rate).None?
    ensures LowRepeatedly(input, At(ss, rate)) ==>
              && low.Some? && low.value in ss
              && ControlledFromLow(input, ss, rate)
                 == Below(input, RoundedRateUp(low.value.o.achieved as real * 100.0 / Share(input)), rate)
  {
    LowGroup(input, At(ss, rate));
    if At(ss, rate) != [] { LowestAchieved(At(ss, rate)); }
  }

  lemma LowestAchieved(group: seq<Sample>)
    requires group != []
    ensures var low := MinBy(group, (s: Sample) => Key1(s.o.achieved as real)).value;
            low in group && forall s | s in group :: low.o.achieved <= s.o.achieved
  {
    var low := MinBy(group, (s: Sample) => Key1(s.o.achieved as real)).value;
    forall s | s in group ensures low.o.achieved <= s.o.achieved {
      MinByIsMin(group, (s: Sample) => Key1(s.o.achieved as real), s);
    }
  }

  /** A low measurement has a peer exactly if another low one of its rate with usable evidence repeats it. */
  lemma LowPeerMeans(input: Input, ss: seq<Sample>, s: Sample)
    ensures RepeatableLowPeer(input, ss, s).Some? <==>
            && s.m.realization < input.thresholds.realizationMin && LowEvidence(input.profile, s.m)
            && exists p | p in ss ::
                 && p.index != s.index && p.o.candidate == s.o.candidate
                 && p.m.realization < input.thresholds.realizationMin && LowEvidence(input.profile, p.m)
                 && Repeatable(p.o.achieved, s.o.achieved)
  {
    var peers := Filter(ss, (p: Sample) => p.index != s.index && p.o.candidate == s.o.candidate
                                           && p.m.realization < input.thresholds.realizationMin
                                           && LowEvidence(input.profile, p.m)
                                           && Repeatable(p.o.achieved, s.o.achieved));
    if p :| p in ss && p.index != s.index && p.o.candidate == s.o.candidate
            && p.m.realization < input.thresholds.realizationMin && LowEvidence(input.profile, p.m)
            && Repeatable(p.o.achieved, s.o.achieved) {
      assert p in peers;
    }
    if peers != [] { assert peers[0] in peers; }
  }

  // ----- the step below an uncontrolled rate

  /** Clean measurements at a rate. */
  predicate CleanAt(input: Input, s: Sample, rate: nat) {
    s.o.candidate == rate && s.o.loss <= input.thresholds.lossMax && !s.o.censored && s.o.achieved > 0
  }

  /** A latency-first profile steps to 90% of the least clean throughput at the rate, if that was not measured yet. */
  lemma LatencyDescentMeans(input: Input, ss: seq<Sample>, rate: nat, low: Sample)
    requires Valid(input) && 1 <= rate <= MAX_RATE && low in ss && CleanAt(input, low, rate)
    requires forall s | s in ss && CleanAt(input, s, rate) :: low.o.achieved <= s.o.achieved
    ensures LatencyDescent(input, ss, rate).Some? ==>
              && input.minimum < rate && !Tested(ss, LatencyDescent(input, ss, rate).value)
              && Carries(input.minimum, rate, low.o.achieved as real * 0.9, 1.0, LatencyDescent(input, ss, rate).value)
    ensures LatencyDescent(input, ss, rate).None? && input.minimum < rate ==>
              exists next :: Carries(input.minimum, rate, low.o.achieved as real * 0.9, 1.0, next) && Tested(ss, next)
  {
    DescentFromLowest(input, ss, rate, low);
    assert low.o.achieved as real * 0.9 / 1.0 == low.o.achieved as real * 0.9;
    BelowMeans(input, low.o.achieved as real * 0.9, 1.0, rate);
  }

  lemma DescentFromLowest(input: Input, ss: seq<Sample>, rate: nat, low: Sample)
    requires low in ss && CleanAt(input, low, rate)
    requires forall s | s in ss && CleanAt(input, s, rate) :: low.o.achieved <= s.o.achieved
    ensures var next := Below(input, RoundedRateUp(low.o.achieved as real * 0.9), rate);
            LatencyDescent(input, ss, rate) == if next.Some? && !Tested(ss, next.value) then next else None
  {
    var clean := Filter(ss, (s: Sample) => s.o.candidate == rate && s.o.loss <= input.thresholds.lossMax
                                           && !s.o.censored && s.o.achieved > 0);
    assert low in clean;
    LowestAchieved(clean);
    assert MinBy(clean, (s: Sample) => Key1(s.o.achieved as real)).value.o.achieved == low.o.achieved;
  }

  // ----- the delay curve

  /** A step down is flat if it improves the delay by no more than 3 ms or the uncertainty of the larger median. */
  lemma FlatMeans(a: Aggregate, b: Aggregate, uncertainty: real)
    ensures Flat(a, b, uncertainty) <==>
            || a.median - b.median <= 3.0
            || a.median - b.median <= MaxReal(a.median, b.median) * (uncertainty / 100.0)
  {}

  /** A knee keeps a measurement at its rate or above, on target if such a best target exists, and marks itself. */
  lemma KneeMeans(knee: Aggregate, target: Option<Sample>, balanced: Option<Sample>)
    requires knee.representative.o.candidate == knee.rate
    ensures var d := DecideKnee(knee, target, balanced);
            && d.knee && d.runtimeMinimum == Some(knee.representative) && d.next.None? && d.reason == MeasuredKnee
            && d.selected.Some? && d.selected.value.o.candidate >= knee.rate
            && (target.Some? && target.value.o.candidate >= knee.rate ==> d.selected == target)
            && (d.action.Complete? <==> d.selected.value.m.targetMet && d.selected.value.m.capacityMet)
            && (d.action.Fallback? <==> !d.action.Complete?)
  {}

  // ----- the fixed step

  /** One step of 15% of observed-low, rounded up to a hundred, or the minimum if that is nearer. */
  lemma FixedStepMeans(observedLow: nat, minimum: nat, current: nat)
    requires minimum <= current && 0 < observedLow <= MAX_RATE
    ensures var r := FixedStep(observedLow, minimum, current);
            && (r.Some? <==> minimum < current)
            && (r.Some? ==>
                  && minimum <= r.value < current
                  && (current - r.value) as real - 100.0 < observedLow as real * 0.15
                  && (r.value > minimum ==>
                        (current - r.value) % 100 == 0 && (current - r.value) as real >= observedLow as real * 0.15))
  {
    RoundedUpMeans(observedLow as real * 15.0 / 100.0);
  }

  // ----- completion

  ghost predicate CertifiedDecision(input: Input, d: Decision) {
    d.selected.Some? && d.selected.value.m.safe && (input.profile.Fair? || d.selected.value.m.targetMet)
  }

  /** Out of attempts: complete exactly with certified evidence, a fallback with any other, else inconclusive. */
  lemma AtLimitExact(input: Input, ss: seq<Sample>)
    ensures var d := DecideAtLimit(input, ss);
            && (d.action.Complete? <==> CertifiedDecision(input, d))
            && (d.action.Inconclusive? <==> d.selected.None?)
            && (d.action.Fallback? <==> !d.action.Complete? && !d.action.Inconclusive?)
  {}

  /** So it is when the last measurement was not controlled. */
  lemma ControlledAtLimitExact(input: Input, ss: seq<Sample>, controlled: Option<nat>)
    requires Ready(input, ss)
    requires controlled.Some? ==> input.minimum <= controlled.value < Last(ss).o.candidate
    requires Last(ss).m.realization <= input.thresholds.realizationMax && |ss| >= input.maxAttempts
    requires ProfileSelected(input, ss).Some? && ProfileSelected(input, ss).value.m.safe
    ensures var d := DecideRealization(input, ss, controlled);
            d.reason == AttemptLimitControlled && (d.action.Complete? <==> CertifiedDecision(input, d))
            && (d.action.Fallback? <==> !d.action.Complete?)
  {}

  /** And when the throughput search has measured its upper bound and nothing is left to bisect. */
  lemma ThroughputExact(input: Input, ss: seq<Sample>, required: nat, highestSafe: Option<nat>,
                        lowestUnsafe: Option<nat>, selected: Option<Sample>)
    requires ss != [] && input.profile.Fair?
    ensures var d := DecideThroughput(input, ss, required, highestSafe, lowestUnsafe, selected);
            d.reason == ThroughputBounded ==>
              && Tested(ss, input.upper) && d.selected == selected && selected.Some?
              && (d.action.Complete? <==> CertifiedDecision(input, d))
              && (d.action.Fallback? <==> !d.action.Complete?)
  {}

  // ----- the physical bottleneck below a configured rate

  /** Every measurement at a rate above the minimum is limited by the link, and two of them repeat each other. */
  ghost predicate LinkLimited(input: Input, ss: seq<Sample>, rate: nat) {
    && input.minimum < rate
    && (forall s | s in ss && s.o.candidate == rate :: CapacityLimited(input, s))
    && exists a, b | a in ss && b in ss :: a.o.candidate == rate && b.o.candidate == rate && RepeatBoth(a, b)
  }

  lemma GroupFound(input: Input, ss: seq<Sample>, rate: nat)
    requires LinkLimited(input, ss, rate)
    ensures CapacityGroupAt(input, ss, rate).Some?
  {
    var group := At(ss, rate);
    var a, b :| a in ss && b in ss && a.o.candidate == rate && b.o.candidate == rate && RepeatBoth(a, b);
    assert a in group && b in group && RepeatBoth(b, a);
    assert CorroboratedBoth(group, a) && CorroboratedBoth(group, b);
    TwoMembers(group, a, b);
    TwoMembers(Filter(group, (s: Sample) => CorroboratedBoth(group, s)), a, b);
  }

  lemma GroupMeans(input: Input, ss: seq<Sample>, rate: nat)
    requires CapacityGroupAt(input, ss, rate).Some?
    ensures LinkLimited(input, ss, rate)
  {
    var group := At(ss, rate);
    var a := CapacityGroupAt(input, ss, rate).value[0];
    assert a in Filter(group, (s: Sample) => CorroboratedBoth(group, s));
    var b :| b in group && RepeatBoth(a, b);
    forall s | s in ss && s.o.candidate == rate ensures CapacityLimited(input, s) { assert s in group; }
  }

  lemma GroupAtIff(input: Input, ss: seq<Sample>, rate: nat)
    ensures CapacityGroupAt(input, ss, rate).Some? <==> LinkLimited(input, ss, rate)
  {
    if LinkLimited(input, ss, rate) { GroupFound(input, ss, rate); }
    if CapacityGroupAt(input, ss, rate).Some? { GroupMeans(input, ss, rate); }
  }

  /** A capacity-limited group exists exactly on Variable Link with such a rate. */
  lemma CapacityGroupIff(input: Input, ss: seq<Sample>)
    ensures CapacityGroup(input, ss).Some? <==>
            input.profile.VariableLink? && exists rate :: LinkLimited(input, ss, rate)
  {
    forall rate ensures CapacityGroupAt(input, ss, rate).Some? <==> LinkLimited(input, ss, rate) {
      GroupAtIff(input, ss, rate);
    }
    forall rate | LinkLimited(input, ss, rate) ensures rate in SortedDistinct(Rates(ss)) {
      var a, b :| a in ss && b in ss && a.o.candidate == rate && b.o.candidate == rate && RepeatBoth(a, b);
      var i :| 0 <= i < |ss| && ss[i] == a;
      assert Rates(ss)[i] == rate;
    }
  }

  // ----- the runtime minimum

  /** A latency-first verdict carries its lowest passing rate as the runtime minimum; a measured knee carries itself. */
  lemma RuntimeMinimumMeans(input: Input, ss: seq<Sample>, d: Decision)
    requires Indexed(ss)
    ensures var c := Conclude(input, ss, d);
            && (!input.profile.VariableLink? ==>
                  && (c.runtimeMinimum.Some? <==>
                        input.profile.LatencyFirst() && c.Terminal() && exists s | s in ss :: s.m.safe && s.m.targetMet)
                  && (c.runtimeMinimum.Some? ==>
                        && c.runtimeMinimum.value < |ss|
                        && var low := ss[c.runtimeMinimum.value];
                           && low.m.safe && low.m.targetMet
                           && forall s | s in ss && s.m.safe && s.m.targetMet :: low.o.candidate <= s.o.candidate))
            && (input.profile.VariableLink? ==>
                  && (c.runtimeMinimum.Some? <==> d.knee && d.runtimeMinimum.Some?)
                  && (c.runtimeMinimum.Some? ==> c.runtimeMinimum.value == d.runtimeMinimum.value.index))
            && c.next == d.next && c.samples == ss
  {
    var lowest := LowestPassing(ss);
    forall s | s in ss && s.m.safe && s.m.targetMet
      ensures lowest.Some? && lowest.value.o.candidate <= s.o.candidate
    {
      assert s in Passing(ss);
      MinByIsMin(Passing(ss), (s: Sample) => Key1(s.o.candidate as real), s);
    }
    if lowest.Some? { assert lowest.value in ss; }
  }
}
