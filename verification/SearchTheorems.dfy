/** Guarantees of the Auto-Tune search for every admitted history. */
module SearchTheorems {
  import opened Selection
  import opened SearchHistory
  import opened Review
  import opened ReviewTheorems
  import opened Search

  /** The judgement every search relies on: safe means reliable and within the loss limit. */
  ghost predicate Coherent(ss: seq<Sample>) {
    forall s | s in ss :: s.m.safe <==> s.m.reliable && s.m.resourceSafe
  }

  lemma JudgedCoherent(input: Input, ss: seq<Sample>)
    requires Judged(input, ss)
    ensures Coherent(ss)
  {
    forall s | s in ss ensures s.m.safe <==> s.m.reliable && s.m.resourceSafe {
      JudgedMeaning(input, ss, s);
    }
  }

  // ----- selectors

  lemma TargetFacts(ss: seq<Sample>)
    ensures BestTarget(ss).Some? <==> exists s | s in ss :: s.m.safe && s.m.targetMet
    ensures BestTarget(ss).Some? ==>
              var s := BestTarget(ss).value; s in ss && s.m.safe && s.m.targetMet
  {
    if s :| s in ss && s.m.safe && s.m.targetMet { assert s in Passing(ss); }
  }

  lemma FairFacts(uncertainty: real, ss: seq<Sample>)
    requires 0.0 <= uncertainty <= 10.0
    ensures BestFair(uncertainty, ss).Some? <==> exists s | s in ss :: s.m.safe
    ensures BestFair(uncertainty, ss).Some? ==>
              var s := BestFair(uncertainty, ss).value; s in ss && s.m.safe
  {
    var top := MaxBy(Safe(ss), (s: Sample) => Key1(s.o.achieved as real));
    if top.Some? {
      TopWithinBand(uncertainty, top.value.o.achieved);
      var band := (s: Sample) => s.m.safe && WithinBand(uncertainty, top.value.o.achieved, s.o.achieved);
      assert top.value in Filter(ss, band);
    }
    SafeIsNonempty(ss);
  }

  lemma TopWithinBand(uncertainty: real, top: nat)
    requires 0.0 <= uncertainty <= 10.0
    ensures WithinBand(uncertainty, top, top)
  {
    assert top as real * (uncertainty / 100.0) >= 0.0;
  }

  lemma SafeIsNonempty(ss: seq<Sample>)
    ensures Safe(ss) != [] <==> exists s | s in ss :: s.m.safe
  {
    if Safe(ss) != [] { assert Safe(ss)[0] in Safe(ss); }
  }

  lemma SafeSelectorFacts(ss: seq<Sample>)
    ensures BestQuality(ss).Some? <==> exists s | s in ss :: s.m.safe
    ensures BestBalanced(ss).Some? <==> exists s | s in ss :: s.m.safe
    ensures BestQuality(ss).Some? ==> BestQuality(ss).value in ss && BestQuality(ss).value.m.safe
    ensures BestBalanced(ss).Some? ==> BestBalanced(ss).value in ss && BestBalanced(ss).value.m.safe
  {
    SafeIsNonempty(ss);
  }

  /** A safe measurement is found exactly when one exists; a target pass is preferred when the profile has a target. */
  lemma BestSafeFacts(input: Input, ss: seq<Sample>)
    requires Valid(input)
    ensures BestSafe(input, ss).Some? <==> exists s | s in ss :: s.m.safe
    ensures BestSafe(input, ss).Some? ==>
              var s := BestSafe(input, ss).value;
              && s in ss && s.m.safe
              && (!input.profile.Fair? ==> (s.m.targetMet <==> exists t | t in ss :: t.m.safe && t.m.targetMet))
  {
    if input.profile.Fair? {
      FairFacts(input.uncertainty, ss);
    } else {
      TargetFacts(ss);
      SafeSelectorFacts(ss);
    }
  }

  lemma SelectedFacts(input: Input, ss: seq<Sample>)
    requires Valid(input)
    ensures ProfileSelected(input, ss).Some? ==> ProfileSelected(input, ss).value in ss
    ensures (exists s | s in ss :: s.m.safe) ==> ProfileSelected(input, ss) == BestSafe(input, ss)
    ensures !input.profile.Fair? ==> ProfileSelected(input, ss) == BestSafe(input, ss)
  {
    BestSafeFacts(input, ss);
  }

  lemma CensoredFacts(ss: seq<Sample>)
    ensures BestCensored(ss).Some? <==> exists s | s in ss :: s.o.censored && s.m.manualReviewable
    ensures BestCensored(ss).Some? ==> BestCensored(ss).value in ss && BestCensored(ss).value.m.manualReviewable
  {
    if s :| s in ss && s.o.censored && s.m.manualReviewable {
      assert s in Filter(ss, (s: Sample) => s.o.censored && s.m.manualReviewable);
    }
  }

  lemma LowRealizationFacts(ss: seq<Sample>)
    ensures BestLowRealization(ss).Some? <==> exists rate :: CorroboratedPair(ss, rate)
    ensures BestLowRealization(ss).Some? ==>
              BestLowRealization(ss).value in ss && BestLowRealization(ss).value.m.manualReviewable
  {
    var rates := SortedDistinct(Rates(ss));
    forall rate ensures LowRealizationAt(ss, rate).Some? <==> CorroboratedPair(ss, rate)
                ensures CorroboratedPair(ss, rate) ==> rate in rates
                ensures LowRealizationAt(ss, rate).Some? ==>
                          var w := LowRealizationAt(ss, rate).value.worst; w in ss && w.m.manualReviewable {
      PairIffLowRealization(ss, rate);
    }
    var all := LowRealizations(ss, rates);
    if all != [] { assert all[0] in all; }
  }

  /** No measurement can be retained in any form. */
  ghost predicate NoEvidence(ss: seq<Sample>) {
    && (forall s | s in ss :: !s.m.safe)
    && (forall s | s in ss :: !(s.o.censored && s.m.manualReviewable))
    && (forall rate :: !CorroboratedPair(ss, rate))
  }

  // ----- every branch: proposals stay bounded, selections stay backed by evidence

  ghost predicate ProposalSound(input: Input, ss: seq<Sample>, d: Decision) {
    d.action.Test? ==>
      && |ss| < input.maxAttempts
      && d.next.Some? && input.minimum <= d.next.value <= input.upper
      && MayAskAgain(input.profile, ss, d.reason, d.next.value)
  }

  /**
   A rate may be asked for while it was measured fewer than three times. Variable
   Link alone goes on while the non-monotonic branch has fewer than three safe ones.
   */
  ghost predicate MayAskAgain(profile: Profile, ss: seq<Sample>, reason: Reason, rate: nat) {
    || Count(ss, rate) < MAX_SAME_CANDIDATE
    || (profile.VariableLink? && reason == RepeatNonmonotonicVariable && |SafeAt(ss, rate)| < MAX_SAME_CANDIDATE)
  }

  ghost predicate SelectionSound(input: Input, ss: seq<Sample>, d: Decision) {
    && (d.selected.Some? ==> d.selected.value in ss)
    && (d.action.Complete? ==>
         d.selected.Some? && d.selected.value.m.safe && (input.profile.Fair? || d.selected.value.m.targetMet))
    && (d.action.Fallback? ==>
         && d.selected.Some? && (d.selected.value.m.safe || d.selected.value.m.manualReviewable)
         && !NoEvidence(ss))
  }

  lemma UntestedCount(ss: seq<Sample>, rate: nat)
    ensures !Tested(ss, rate) ==> Count(ss, rate) == 0
  {
    if At(ss, rate) != [] { assert At(ss, rate)[0] in At(ss, rate); }
  }

  lemma UnreliableSound(input: Input, ss: seq<Sample>)
    requires Ready(input, ss) && !input.profile.VariableLink?
    ensures ProposalSound(input, ss, DecideUnreliable(input, ss))
    ensures SelectionSound(input, ss, DecideUnreliable(input, ss))
  {
    RealizationSound(input, ss, ControlledFromLow(input, ss, Last(ss).o.candidate));
  }

  lemma RealizationSound(input: Input, ss: seq<Sample>, controlled: Option<nat>)
    requires Ready(input, ss) && !input.profile.VariableLink?
    requires controlled.Some? ==> input.minimum <= controlled.value < Last(ss).o.candidate
    ensures ProposalSound(input, ss, DecideRealization(input, ss, controlled))
    ensures SelectionSound(input, ss, DecideRealization(input, ss, controlled))
  {
    assert Last(ss) in ss;
    SelectedFacts(input, ss);
    LowSound(input, ss, controlled);
  }

  lemma LowSound(input: Input, ss: seq<Sample>, controlled: Option<nat>)
    requires Ready(input, ss) && !input.profile.VariableLink?
    requires controlled.Some? ==> input.minimum <= controlled.value < Last(ss).o.candidate
    ensures ProposalSound(input, ss, DecideLow(input, ss, controlled))
    ensures SelectionSound(input, ss, DecideLow(input, ss, controlled))
  {
    var rate := Last(ss).o.candidate;
    assert Last(ss) in ss;
    SelectedFacts(input, ss);
    if controlled.Some? {
      ControlledSound(input, ss, controlled.value);
    } else {
      var descent := LatencyDescent(input, ss, rate);
      if descent.Some? { UntestedCount(ss, descent.value); }
    }
  }

  lemma ControlledSound(input: Input, ss: seq<Sample>, controlled: nat)
    requires Ready(input, ss) && !input.profile.VariableLink?
    requires input.minimum <= controlled < Last(ss).o.candidate
    ensures ProposalSound(input, ss, DecideControlled(input, ss, controlled))
    ensures SelectionSound(input, ss, DecideControlled(input, ss, controlled))
  {
    assert Last(ss) in ss;
    UntestedCount(ss, controlled);
    UntestedCount(ss, Midpoint(controlled, Last(ss).o.candidate));
    SelectedFacts(input, ss);
    BestSafeFacts(input, ss);
    var safe := SafeAt(ss, controlled);
    if safe != [] { assert safe[0] in safe; }
  }

  lemma BoundFacts(ss: seq<Sample>)
    ensures Lowest(ss).Some? <==> ss != []
    ensures Highest(ss).Some? <==> ss != []
    ensures ss != [] ==> Tested(ss, Lowest(ss).value) && forall s | s in ss :: Lowest(ss).value <= s.o.candidate
    ensures ss != [] ==> Tested(ss, Highest(ss).value) && forall s | s in ss :: s.o.candidate <= Highest(ss).value
  {
    forall s | s in ss ensures Lowest(ss).value <= s.o.candidate <= Highest(ss).value {
      MinByIsMin(ss, (s: Sample) => Key1(s.o.candidate as real), s);
      MaxByIsMax(ss, (s: Sample) => Key1(s.o.candidate as real), s);
    }
  }

  lemma ThroughputSound(input: Input, ss: seq<Sample>, required: nat, highestSafe: Option<nat>,
                        lowestUnsafe: Option<nat>, selected: Option<Sample>)
    requires Ready(input, ss) && input.profile.Fair? && Last(ss).m.safe && |ss| < input.maxAttempts
    requires highestSafe.Some? ==> input.minimum <= highestSafe.value
    requires lowestUnsafe.Some? ==> lowestUnsafe.value <= input.upper
    requires selected.Some? && selected.value in ss && selected.value.m.safe
    ensures var d := DecideThroughput(input, ss, required, highestSafe, lowestUnsafe, selected);
            ProposalSound(input, ss, d) && SelectionSound(input, ss, d)
  {
    var d := DecideThroughput(input, ss, required, highestSafe, lowestUnsafe, selected);
    if d.action.Test? { UntestedCount(ss, d.next.value); }
  }

  lemma FairSound(input: Input, ss: seq<Sample>)
    requires Ready(input, ss) && input.profile.Fair? && Last(ss).m.safe && |ss| < input.maxAttempts
    ensures ProposalSound(input, ss, DecideFair(input, ss))
    ensures SelectionSound(input, ss, DecideFair(input, ss))
  {
    assert Last(ss) in ss;
    SelectedFacts(input, ss);
    BestSafeFacts(input, ss);
    BoundFacts(Safe(ss));
    var highestSafe := Highest(Safe(ss));
    var above := Filter(ss, (s: Sample) => s.o.candidate > highestSafe.value && !s.m.safe);
    BoundFacts(above);
    ThroughputSound(input, ss, RequiredForFloor(input, Last(ss)), highestSafe, Lowest(above),
                    ProfileSelected(input, ss));
  }

  /** Once the last measurement is safe, the capacity-floor branches cannot be taken. */
  lemma CapacityFloorUnreachable(input: Input, ss: seq<Sample>)
    requires Ready(input, ss) && Last(ss).m.safe
    ensures DecideQuality(input, ss) ==
              if LowerPass(ss).Some? then DecideBracket(input, ss, LowerPass(ss).value, UpperFail(ss))
              else DecideDescent(input, ss)
  {}

  lemma QualitySelection(input: Input, ss: seq<Sample>)
    requires Ready(input, ss) && !input.profile.Fair? && Last(ss).m.safe
    ensures SelectionSound(input, ss, DecideQuality(input, ss))
  {
    if LowerPass(ss).Some? {
      BracketSelection(input, ss, LowerPass(ss).value, UpperFail(ss));
    } else {
      DescentSelection(input, ss);
    }
  }

  lemma DescentSelection(input: Input, ss: seq<Sample>)
    requires Ready(input, ss) && !input.profile.Fair? && Last(ss).m.safe
    ensures SelectionSound(input, ss, DecideDescent(input, ss))
  {
    assert Last(ss) in ss;
    SelectedFacts(input, ss);
    BestSafeFacts(input, ss);
  }

  lemma BracketSelection(input: Input, ss: seq<Sample>, lower: nat, upper: Option<nat>)
    requires Valid(input) && !input.profile.Fair? && LowerPass(ss).Some?
    ensures SelectionSound(input, ss, DecideBracket(input, ss, lower, upper))
  {
    BoundFacts(Passing(ss));
    SelectedFacts(input, ss);
    BestSafeFacts(input, ss);
  }

  lemma QualityProposal(input: Input, ss: seq<Sample>)
    requires Ready(input, ss) && Last(ss).m.safe && DecideQuality(input, ss).action.Test?
    ensures var next := DecideQuality(input, ss).next;
            next.Some? && input.minimum <= next.value <= input.upper && !Tested(ss, next.value)
            && Count(ss, next.value) == 0
  {
    assert Last(ss) in ss;
    BoundFacts(ss);
    var d := DecideQuality(input, ss);
    if LowerPass(ss).Some? {
      BoundFacts(Passing(ss));
      BoundFacts(FailingAbove(ss, LowerPass(ss).value));
    } else {
      MidpointAtLeast(input.minimum, Lowest(ss).value);
    }
    UntestedCount(ss, d.next.value);
  }

  lemma QualitySound(input: Input, ss: seq<Sample>)
    requires Ready(input, ss) && !input.profile.Fair? && !input.profile.VariableLink?
    requires Last(ss).m.safe && |ss| < input.maxAttempts
    ensures ProposalSound(input, ss, DecideQuality(input, ss))
    ensures SelectionSound(input, ss, DecideQuality(input, ss))
  {
    QualitySelection(input, ss);
    if DecideQuality(input, ss).action.Test? { QualityProposal(input, ss); }
  }

  lemma MidpointAtLeast(lower: nat, upper: nat)
    requires lower <= upper <= MAX_RATE
    ensures lower <= Midpoint(lower, upper) <= upper
  {}

  lemma DecideSound(input: Input, ss: seq<Sample>)
    requires Ready(input, ss) && Coherent(ss) && !input.profile.VariableLink?
    ensures ProposalSound(input, ss, Decide(input, ss))
    ensures SelectionSound(input, ss, Decide(input, ss))
  {
    var last := Last(ss);
    assert last in ss;
    SelectedFacts(input, ss);
    if !last.m.reliable {
      UnreliableSound(input, ss);
    } else if last.m.resourceSafe {
      BestSafeFacts(input, ss);
      if |ss| < input.maxAttempts {
        if input.profile.Fair? { FairSound(input, ss); } else { QualitySound(input, ss); }
      }
    }
  }

  // ----- Variable Link

  lemma AggregateRates(ss: seq<Sample>, a: Aggregate)
    requires a in Aggregates(ss, SortedDistinct(Rates(ss)))
    ensures a.representative in ss && a.representative.m.safe && a.representative.o.candidate == a.rate
    ensures a.repeats == |SafeAt(ss, a.rate)|
  {
    assert AggregateAt(ss, a.rate) == Some(a);
  }

  lemma VariableSelectorFacts(ss: seq<Sample>)
    ensures BestNoCakeEffect(ss).Some? ==> BestNoCakeEffect(ss).value in ss && BestNoCakeEffect(ss).value.m.safe
    ensures BestVariableCeiling(ss).Some? ==>
              BestVariableCeiling(ss).value in ss && BestVariableCeiling(ss).value.m.safe
  {}

  lemma PlateauSound(input: Input, ss: seq<Sample>, knee: Aggregate, priorUseful: bool)
    requires knee.representative in ss && knee.representative.m.safe
    ensures ProposalSound(input, ss, DecidePlateau(input, ss, knee, priorUseful))
    ensures SelectionSound(input, ss, DecidePlateau(input, ss, knee, priorUseful))
  {
    if priorUseful {
      TargetFacts(ss);
      SafeSelectorFacts(ss);
      KneeSound(input, ss, knee, BestTarget(ss), BestBalanced(ss));
    } else {
      VariableSelectorFacts(ss);
    }
  }

  lemma KneeSound(input: Input, ss: seq<Sample>, knee: Aggregate, target: Option<Sample>, balanced: Option<Sample>)
    requires knee.representative in ss && knee.representative.m.safe
    requires target.Some? ==> target.value in ss && target.value.m.safe
    requires balanced.Some? ==> balanced.value in ss && balanced.value.m.safe
    ensures ProposalSound(input, ss, DecideKnee(knee, target, balanced))
    ensures SelectionSound(input, ss, DecideKnee(knee, target, balanced))
  {}

  ghost predicate CurveEvidence(input: Input, ss: seq<Sample>, aggregates: seq<Aggregate>) {
    forall a | a in aggregates ::
      && input.minimum <= a.rate <= input.upper && a.representative in ss && a.representative.m.safe
      && a.repeats == |SafeAt(ss, a.rate)|
  }

  lemma CurveSound(input: Input, ss: seq<Sample>, aggregates: seq<Aggregate>,
                   rises: bool, plateau: bool, priorUseful: bool)
    requires Ready(input, ss) && input.profile.VariableLink? && CurveEvidence(input, ss, aggregates)
    requires rises ==> |aggregates| >= 2
    requires plateau ==> |aggregates| >= 3
    ensures var d := DecideCurveOn(input, ss, aggregates, rises, plateau, priorUseful);
            ProposalSound(input, ss, d) && SelectionSound(input, ss, d)
  {
    if rises {
      CurveRiseSound(input, ss, aggregates, plateau, priorUseful);
    } else if plateau {
      CurvePlateauSound(input, ss, aggregates, priorUseful);
    } else {
      CurveStepSound(input, ss, aggregates, priorUseful);
    }
  }

  lemma CurveRiseSound(input: Input, ss: seq<Sample>, aggregates: seq<Aggregate>, plateau: bool, priorUseful: bool)
    requires Ready(input, ss) && input.profile.VariableLink? && CurveEvidence(input, ss, aggregates)
    requires |aggregates| >= 2 && (plateau ==> |aggregates| >= 3)
    ensures var d := DecideCurveOn(input, ss, aggregates, true, plateau, priorUseful);
            ProposalSound(input, ss, d) && SelectionSound(input, ss, d)
  {
    assert aggregates[|aggregates| - 1] in aggregates;
    RiseSound(input, ss, aggregates[|aggregates| - 1]);
  }

  lemma CurvePlateauSound(input: Input, ss: seq<Sample>, aggregates: seq<Aggregate>, priorUseful: bool)
    requires Ready(input, ss) && input.profile.VariableLink? && CurveEvidence(input, ss, aggregates)
        && |aggregates| >= 3
    ensures var d := DecideCurveOn(input, ss, aggregates, false, true, priorUseful);
            ProposalSound(input, ss, d) && SelectionSound(input, ss, d)
  {
    assert aggregates[|aggregates| - 3] in aggregates;
    PlateauSound(input, ss, aggregates[|aggregates| - 3], priorUseful);
  }

  lemma CurveStepSound(input: Input, ss: seq<Sample>, aggregates: seq<Aggregate>, priorUseful: bool)
    requires Ready(input, ss) && input.profile.VariableLink? && CurveEvidence(input, ss, aggregates)
    ensures var d := DecideCurveOn(input, ss, aggregates, false, false, priorUseful);
            ProposalSound(input, ss, d) && SelectionSound(input, ss, d)
  {
    var n := |aggregates|;
    assert Last(ss) in ss;
    if n > 0 { assert aggregates[n - 1] in aggregates; }
    StepSound(input, ss, if n > 0 then aggregates[n - 1].rate else Last(ss).o.candidate);
  }

  lemma RiseSound(input: Input, ss: seq<Sample>, lowest: Aggregate)
    requires input.profile.VariableLink? && input.minimum <= lowest.rate <= input.upper
    requires lowest.repeats == |SafeAt(ss, lowest.rate)|
    ensures ProposalSound(input, ss, DecideRise(input, ss, lowest))
    ensures SelectionSound(input, ss, DecideRise(input, ss, lowest))
  {
    VariableSelectorFacts(ss);
  }

  lemma StepSound(input: Input, ss: seq<Sample>, lowest: nat)
    requires input.profile.VariableLink? && input.minimum <= lowest <= input.upper
    ensures ProposalSound(input, ss, DecideStep(input, ss, lowest))
    ensures SelectionSound(input, ss, DecideStep(input, ss, lowest))
  {
    VariableSelectorFacts(ss);
    var d := DecideStep(input, ss, lowest);
    if d.action.Test? { UntestedCount(ss, d.next.value); }
  }

  lemma LastSound(input: Input, ss: seq<Sample>, noisy: bool, curve: Decision)
    requires Ready(input, ss) && input.profile.VariableLink?
    requires ProposalSound(input, ss, curve) && SelectionSound(input, ss, curve)
    ensures ProposalSound(input, ss, DecideVariableOn(input, ss, noisy, curve))
    ensures SelectionSound(input, ss, DecideVariableOn(input, ss, noisy, curve))
  {
    assert Last(ss) in ss;
    if !Last(ss).m.resourceSafe {
      VariableUnsafeSound(input, ss);
    } else if !Last(ss).m.reliable {
      VariableUnreliableSound(input, ss);
    } else {
      VariableSelectorFacts(ss);
    }
  }

  lemma VariableUnsafeSound(input: Input, ss: seq<Sample>)
    requires Ready(input, ss) && input.profile.VariableLink?
    ensures ProposalSound(input, ss, DecideVariableUnsafe(input, ss))
    ensures SelectionSound(input, ss, DecideVariableUnsafe(input, ss))
  {
    assert Last(ss) in ss;
    var d := DecideVariableUnsafe(input, ss);
    if d.action.Test? { UntestedCount(ss, d.next.value); }
  }

  lemma VariableLowSound(input: Input, ss: seq<Sample>, controlled: Option<nat>, low: Option<Sample>)
    requires Ready(input, ss) && input.profile.VariableLink?
    requires controlled.Some? ==> input.minimum <= controlled.value <= Last(ss).o.candidate
    requires low.Some? ==> low.value in ss && low.value.m.manualReviewable && !NoEvidence(ss)
    ensures var d := DecideVariableLow(input, ss, controlled, low);
            ProposalSound(input, ss, d) && SelectionSound(input, ss, d)
  {
    assert Last(ss) in ss;
    if controlled.Some? { UntestedCount(ss, controlled.value); }
  }

  lemma VariableUnreliableSound(input: Input, ss: seq<Sample>)
    requires Ready(input, ss) && input.profile.VariableLink?
    ensures ProposalSound(input, ss, DecideVariableUnreliable(input, ss))
    ensures SelectionSound(input, ss, DecideVariableUnreliable(input, ss))
  {
    LowRealizationFacts(ss);
    VariableLowSound(input, ss, ControlledFromLow(input, ss, Last(ss).o.candidate), BestLowRealization(ss));
  }

  lemma VariableSound(input: Input, ss: seq<Sample>)
    requires Ready(input, ss) && input.profile.VariableLink?
    ensures ProposalSound(input, ss, DecideVariable(input, ss))
    ensures SelectionSound(input, ss, DecideVariable(input, ss))
  {
    var aggregates := Aggregates(ss, SortedDistinct(Rates(ss)));
    forall a | a in aggregates
      ensures input.minimum <= a.rate <= input.upper && a.representative in ss && a.representative.m.safe
      ensures a.repeats == |SafeAt(ss, a.rate)| {
      AggregateRates(ss, a);
    }
    var u := input.uncertainty;
    CurveSound(input, ss, aggregates, Rises(aggregates, u), Plateau(aggregates, u), PriorUseful(aggregates, u));
    LastSound(input, ss, NoisyLast(Last(ss).o.candidate, aggregates), DecideCurve(input, ss, aggregates));
  }

  lemma DecisionSound(input: Input, ss: seq<Sample>)
    requires Ready(input, ss) && Coherent(ss)
    ensures ProposalSound(input, ss, DecisionFor(input, ss))
    ensures SelectionSound(input, ss, DecisionFor(input, ss))
  {
    if input.profile.VariableLink? { VariableSound(input, ss); } else { DecideSound(input, ss); }
  }

  // ----- branches no history reaches

  /** The reasons of the branches that raise a rate towards a capacity or throughput floor. */
  ghost predicate FloorReason(reason: Reason) {
    || reason == RaiseToCapacityFloor || reason == TestUpperForCapacityFloor
    || reason == TargetConflictsWithCapacityFloor || reason == RaiseTowardThroughputFloor
  }

  /** Reasons that only the latency-target search, or none, can give. */
  ghost predicate Reserved(reason: Reason) { FloorReason(reason) || reason == BisectQualityBoundary }

  lemma UnreliableReasons(input: Input, ss: seq<Sample>)
    requires Ready(input, ss)
    ensures !Reserved(DecideUnreliable(input, ss).reason)
  {
    RealizationReasons(input, ss, ControlledFromLow(input, ss, Last(ss).o.candidate));
  }

  lemma RealizationReasons(input: Input, ss: seq<Sample>, controlled: Option<nat>)
    requires Ready(input, ss) && (controlled.Some? ==> input.minimum <= controlled.value < Last(ss).o.candidate)
    ensures !Reserved(DecideRealization(input, ss, controlled).reason)
  {
    LowReasons(input, ss, controlled);
  }

  lemma LowReasons(input: Input, ss: seq<Sample>, controlled: Option<nat>)
    requires Ready(input, ss) && (controlled.Some? ==> input.minimum <= controlled.value < Last(ss).o.candidate)
    ensures !Reserved(DecideLow(input, ss, controlled).reason)
  {}

  lemma ThroughputReasons(input: Input, ss: seq<Sample>, required: nat, highestSafe: Option<nat>,
                          lowestUnsafe: Option<nat>, selected: Option<Sample>)
    requires ss != [] && Last(ss).m.safe
    ensures !Reserved(DecideThroughput(input, ss, required, highestSafe, lowestUnsafe, selected).reason)
  {}

  lemma FairReasons(input: Input, ss: seq<Sample>)
    requires Ready(input, ss) && Last(ss).m.safe
    ensures !Reserved(DecideFair(input, ss).reason)
  {
    var highestSafe := Highest(Safe(ss));
    ThroughputReasons(input, ss, RequiredForFloor(input, Last(ss)), highestSafe,
                      if highestSafe.None? then None
                      else Lowest(Filter(ss, (s: Sample) => s.o.candidate > highestSafe.value && !s.m.safe)),
                      ProfileSelected(input, ss));
  }

  /** Only the bracket branch bisects the quality boundary, and no branch raises towards a floor. */
  lemma DecideReasons(input: Input, ss: seq<Sample>)
    requires Ready(input, ss) && Coherent(ss)
    ensures !FloorReason(Decide(input, ss).reason)
    ensures Decide(input, ss).reason == BisectQualityBoundary ==>
              Last(ss).m.safe && Decide(input, ss) == DecideQuality(input, ss)
  {
    assert Last(ss) in ss;
    if !Last(ss).m.reliable {
      UnreliableReasons(input, ss);
    } else if Last(ss).m.resourceSafe && |ss| < input.maxAttempts {
      if input.profile.Fair? { FairReasons(input, ss); } else { QualityReasons(input, ss); }
    }
  }

  lemma QualityReasons(input: Input, ss: seq<Sample>)
    requires Ready(input, ss) && Last(ss).m.safe
    ensures !FloorReason(DecideQuality(input, ss).reason)
  {
    CapacityFloorUnreachable(input, ss);
  }

  lemma VariableReasons(input: Input, ss: seq<Sample>)
    requires Ready(input, ss)
    ensures !Reserved(DecideVariable(input, ss).reason)
  {
    var aggregates := Aggregates(ss, SortedDistinct(Rates(ss)));
    var u := input.uncertainty;
    CurveReasons(input, ss, aggregates, Rises(aggregates, u), Plateau(aggregates, u), PriorUseful(aggregates, u));
    LastReasons(input, ss, NoisyLast(Last(ss).o.candidate, aggregates), DecideCurve(input, ss, aggregates));
  }

  lemma CurveReasons(input: Input, ss: seq<Sample>, aggregates: seq<Aggregate>,
                     rises: bool, plateau: bool, priorUseful: bool)
    requires Ready(input, ss) && forall a | a in aggregates :: input.minimum <= a.rate <= input.upper
    requires (rises ==> |aggregates| >= 2) && (plateau ==> |aggregates| >= 3)
    ensures !Reserved(DecideCurveOn(input, ss, aggregates, rises, plateau, priorUseful).reason)
  {}

  lemma LastReasons(input: Input, ss: seq<Sample>, noisy: bool, curve: Decision)
    requires Ready(input, ss) && !Reserved(curve.reason)
    ensures !Reserved(DecideVariableOn(input, ss, noisy, curve).reason)
  {
    if !Last(ss).m.resourceSafe {
      VariableUnsafeReasons(input, ss);
    } else if !Last(ss).m.reliable {
      VariableLowReasons(input, ss, ControlledFromLow(input, ss, Last(ss).o.candidate), BestLowRealization(ss));
    }
  }

  lemma VariableUnsafeReasons(input: Input, ss: seq<Sample>)
    requires Ready(input, ss)
    ensures !Reserved(DecideVariableUnsafe(input, ss).reason)
  {}

  lemma VariableLowReasons(input: Input, ss: seq<Sample>, controlled: Option<nat>, low: Option<Sample>)
    requires ss != []
    ensures !Reserved(DecideVariableLow(input, ss, controlled, low).reason)
  {}

  /**
    * No search ever raises a rate towards a floor: those branches need a reliable, resource-safe, unsafe
    * measurement.
    */
  lemma FloorBranchesUnreachable(input: Input)
    requires Valid(input)
    ensures !FloorReason(Optimize(input).value.reason)
  {
    SamplesReady(input);
    var ss := Samples(input);
    JudgedCoherent(input, ss);
    if input.profile.VariableLink? { VariableReasons(input, ss); } else { DecideReasons(input, ss); }
    var d := DecisionFor(input, ss);
    ConcludedReason(input, ss, d);
    AlignedReason(Conclude(input, ss, d), ReviewOptions(Conclude(input, ss, d)));
  }

  lemma ConcludedReason(input: Input, ss: seq<Sample>, d: Decision)
    ensures Conclude(input, ss, d).reason in {d.reason, BoundedLowRealizationReview, CensoredReview}
  {}

  lemma AlignedReason(r: SearchResult, options: seq<ReviewOption>)
    ensures AlignTo(r, options).reason in {r.reason, ConservativeReviewDowngrade}
  {}

  // ----- verdicts

  ghost predicate SelectsEvidence(r: SearchResult) {
    && r.selected.Some? && r.selected.value < |r.samples|
    && var s := r.samples[r.selected.value];
       && (s.m.safe || s.m.manualReviewable)
       && (r.action.Complete? ==> Certified(r, s))
  }

  /** The chain of fallbacks, over whatever evidence there is. */
  lemma ResolveWithSound(input: Input, ss: seq<Sample>, d: Decision, best: Option<Sample>, low: Option<Sample>,
                         censored: Option<Sample>)
    requires SelectionSound(input, ss, d)
    requires best.Some? ==> best.value in ss && best.value.m.safe
    requires low.Some? ==> low.value in ss && low.value.m.manualReviewable
    requires censored.Some? ==> censored.value in ss && censored.value.m.manualReviewable
    requires NoEvidence(ss) <==> best.None? && low.None? && censored.None?
    ensures var (action, selected, reason) := ResolveWith(d, best, low, censored);
            && (action.Test? <==> d.action.Test?)
            && (action.Inconclusive? <==> d.action.Inconclusive? && NoEvidence(ss))
            && (action.Complete? || action.Fallback? ==>
                 && !NoEvidence(ss)
                 && selected.Some? && selected.value in ss
                 && (selected.value.m.safe || selected.value.m.manualReviewable)
                 && (action.Complete? ==> selected.value.m.safe && (input.profile.Fair? || selected.value.m.targetMet)))
  {}

  lemma ResolveSound(input: Input, ss: seq<Sample>, d: Decision)
    requires Ready(input, ss) && SelectionSound(input, ss, d)
    ensures var (action, selected, reason) := Resolve(input, ss, d);
            && (action.Test? <==> d.action.Test?)
            && (action.Inconclusive? <==> d.action.Inconclusive? && NoEvidence(ss))
            && (action.Complete? || action.Fallback? ==>
                 && !NoEvidence(ss)
                 && selected.Some? && selected.value in ss
                 && (selected.value.m.safe || selected.value.m.manualReviewable)
                 && (action.Complete? ==> selected.value.m.safe && (input.profile.Fair? || selected.value.m.targetMet)))
  {
    BestSafeFacts(input, ss);
    CensoredFacts(ss);
    LowRealizationFacts(ss);
    ResolveWithSound(input, ss, d, BestSafe(input, ss), BestLowRealization(ss), BestCensored(ss));
  }

  lemma ConcludeSound(input: Input, ss: seq<Sample>, d: Decision)
    requires Ready(input, ss) && SelectionSound(input, ss, d)
    ensures var r := Align(Conclude(input, ss, d));
            && r.samples == ss && r.next == d.next && r.profile == input.profile
            && (r.action.Test? <==> d.action.Test?)
            && (r.action.Inconclusive? <==> d.action.Inconclusive? && NoEvidence(ss))
            && (r.Terminal() ==> SelectsEvidence(r) && !NoEvidence(ss))
            && (r.action.Test? ==> r.reason == d.reason)
  {
    ResolveSound(input, ss, d);
    AlignSound(Conclude(input, ss, d));
  }

  /** Alignment keeps the verdict's evidence: it may move the selection or withdraw a completion. */
  lemma AlignSound(r: SearchResult)
    requires Indexed(r.samples) && (r.Terminal() ==> SelectsEvidence(r))
    ensures Align(r).samples == r.samples && Align(r).next == r.next && Align(r).profile == r.profile
    ensures !r.Terminal() ==> Align(r) == r
    ensures r.Terminal() ==> Align(r).Terminal() && SelectsEvidence(Align(r))
  {
    if r.Terminal() && ReviewOptions(r) != [] {
      FirstOption(r);
      AlignToSound(r, ReviewOptions(r));
    }
  }

  lemma FirstOption(r: SearchResult)
    requires r.Terminal() && ReviewOptions(r) != []
    ensures var s := ReviewOptions(r)[0].candidate.worst; s in r.samples && (s.m.safe || s.m.manualReviewable)
  {
    OptionIsReviewable(r, ReviewOptions(r)[0]);
  }

  lemma AlignToSound(r: SearchResult, options: seq<ReviewOption>)
    requires Indexed(r.samples) && r.Terminal() && options != []
    requires var s := options[0].candidate.worst; s in r.samples && (s.m.safe || s.m.manualReviewable)
    ensures AlignTo(r, options).Terminal() && SelectsEvidence(AlignTo(r, options))
  {
    var s := options[0].candidate.worst;
    assert r.samples[s.index] == s;
  }

  /**
   Verdicts of the search. Inconclusive means that nothing can be retained;
   Complete and Fallback carry a safe or manually reviewable measurement;
   Complete carries a safe one that meets the target unless the profile is Fair.
   */
  lemma VerdictSound(input: Input)
    requires Valid(input)
    ensures var r := Optimize(input).value;
            && r.samples == Samples(input)
            && (!r.action.Test? ==>
                 && (r.action.Inconclusive? <==> NoEvidence(r.samples))
                 && (r.action.Inconclusive? <==> NothingUsable(input)))
            && (r.Terminal() ==> SelectsEvidence(r) && SelectsMeasurement(input, r))
            && (r.action.Test? ==>
                 && |input.observations| < input.maxAttempts
                 && r.next.Some? && input.minimum <= r.next.value <= input.upper
                 && MayAskAgain(input.profile, r.samples, r.reason, r.next.value))
  {
    VerdictOfSamples(input);
    EvidenceMeasured(input);
    if Optimize(input).value.Terminal() { SelectionMeasured(input, Optimize(input).value); }
  }

  /** The selected measurement is safe or worth a review; a completed one is safe and, but for Fair, on target. */
  ghost predicate SelectsMeasurement(input: Input, r: SearchResult) {
    && r.selected.Some? && r.selected.value < |input.observations|
    && var o := input.observations[r.selected.value];
       && (PassesSafety(input.thresholds, o) || WorthReview(input, o))
       && (r.action.Complete? ==>
             PassesSafety(input.thresholds, o) && (input.profile.Fair? || MeetsTarget(input.profile, o)))
  }

  /** Two measurements of one rate, worth a review and with no delay above 200 ms, achieve the same within 5%. */
  ghost predicate RepeatEachOther(input: Input, i: nat, j: nat)
    requires i < |input.observations| && j < |input.observations|
  {
    var a, b := input.observations[i], input.observations[j];
    && i != j && a.candidate == b.candidate && WorthReview(input, a) && WorthReview(input, b)
    && a.icmpDelta <= 200.0 && a.transportDelta <= 200.0 && b.icmpDelta <= 200.0 && b.transportDelta <= 200.0
    && 95 * a.achieved <= 100 * b.achieved && 95 * b.achieved <= 100 * a.achieved
  }

  /** Nothing was measured that could be kept. */
  ghost predicate NothingUsable(input: Input) {
    && (forall o | o in input.observations :: !PassesSafety(input.thresholds, o))
    && (forall o | o in input.observations :: !(o.censored && WorthReview(input, o)))
    && (forall i, j | 0 <= i < |input.observations| && 0 <= j < |input.observations| :: !RepeatEachOther(input, i, j))
  }

  /** The judgement of the fresh samples, exactly. */
  lemma SampleMeaning(input: Input, i: nat)
    requires Valid(input) && i < |input.observations|
    ensures var (s, o) := (Samples(input)[i], input.observations[i]);
            && s.o == o && s.index == i && s in Samples(input) && o in input.observations
            && (s.m.safe <==> PassesSafety(input.thresholds, o))
            && (s.m.targetMet <==> MeetsTarget(input.profile, o))
            && (s.m.manualReviewable <==> WorthReview(input, o))
            && (s.m.delta <= 200.0 <==> o.icmpDelta <= 200.0 && o.transportDelta <= 200.0)
  {
    assert ValidObservation(input, input.observations[i]);
    JudgeMeaning(input, input.observations[i]);
  }

  lemma RepeatableWithin(left: nat, right: nat)
    requires left > 0 && right > 0
    ensures Repeatable(left, right) <==> 95 * left <= 100 * right && 95 * right <= 100 * left
  {
    var high, low := MaxNat(left, right), MinNat(left, right);
    ShareAtLeast((high - low) as real * 100.0, high as real, 5.0);
  }

  lemma PairMeasured(input: Input, i: nat, j: nat)
    requires Valid(input) && i < |input.observations| && j < |input.observations|
    ensures var (a, b) := (Samples(input)[i], Samples(input)[j]);
            RepeatEachOther(input, i, j) <==>
              && a.index != b.index && a.o.candidate == b.o.candidate && a.m.manualReviewable && b.m.manualReviewable
              && a.m.delta <= 200.0 && b.m.delta <= 200.0 && Repeatable(a.o.achieved, b.o.achieved)
  {
    SampleMeaning(input, i);
    SampleMeaning(input, j);
    assert ValidObservation(input, input.observations[i]) && ValidObservation(input, input.observations[j]);
    RepeatableWithin(input.observations[i].achieved, input.observations[j].achieved);
  }

  lemma PairsMeasured(input: Input)
    requires Valid(input)
    ensures (exists rate :: CorroboratedPair(Samples(input), rate)) <==>
            exists i, j | 0 <= i < |input.observations| && 0 <= j < |input.observations| :: RepeatEachOther(input, i, j)
  {
    var ss := Samples(input);
    if rate :| CorroboratedPair(ss, rate) {
      var a, b :| a in ss && b in ss && a.index != b.index && a.o.candidate == rate && b.o.candidate == rate
        && a.m.manualReviewable && b.m.manualReviewable && a.m.delta <= 200.0 && b.m.delta <= 200.0
        && Repeatable(a.o.achieved, b.o.achieved);
      var i, j :| 0 <= i < |ss| && ss[i] == a && 0 <= j < |ss| && ss[j] == b;
      PairMeasured(input, i, j);
    }
    if i, j :| 0 <= i < |ss| && 0 <= j < |ss| && RepeatEachOther(input, i, j) {
      PairMeasured(input, i, j);
      SampleMeaning(input, i);
      SampleMeaning(input, j);
      assert CorroboratedPair(ss, ss[i].o.candidate);
    }
  }

  lemma EvidenceMeasured(input: Input)
    requires Valid(input)
    ensures NoEvidence(Samples(input)) <==> NothingUsable(input)
  {
    var ss, obs := Samples(input), input.observations;
    forall i | 0 <= i < |obs|
      ensures ss[i].o == obs[i] && ss[i] in ss && obs[i] in obs
      ensures ss[i].m.safe <==> PassesSafety(input.thresholds, obs[i])
      ensures ss[i].m.manualReviewable <==> WorthReview(input, obs[i])
    {
      SampleMeaning(input, i);
    }
    PairsMeasured(input);
  }

  lemma SelectionMeasured(input: Input, r: SearchResult)
    requires Valid(input) && r.samples == Samples(input) && r.profile == input.profile && SelectsEvidence(r)
    ensures SelectsMeasurement(input, r)
  {
    SampleMeaning(input, r.selected.value);
  }

  lemma VerdictOfSamples(input: Input)
    requires Valid(input)
    ensures var r := Optimize(input).value;
            && r.samples == Samples(input) && r.profile == input.profile
            && (!r.action.Test? ==> (r.action.Inconclusive? <==> NoEvidence(r.samples)))
            && (r.Terminal() ==> SelectsEvidence(r))
            && (r.action.Test? ==>
                 && |input.observations| < input.maxAttempts
                 && r.next.Some? && input.minimum <= r.next.value <= input.upper
                 && MayAskAgain(input.profile, r.samples, r.reason, r.next.value))
  {
    SamplesReady(input);
    var ss := Samples(input);
    JudgedCoherent(input, ss);
    DecisionSound(input, ss);
    ConcludeSound(input, ss, DecisionFor(input, ss));
  }

  /**
   Ending a search at its measured boundary always gives a verdict: it is
   inconclusive exactly when nothing was measured that could be retained, and
   otherwise selects a safe or manually reviewable measurement.
   */
  lemma BoundarySound(input: Input)
    requires Valid(input)
    ensures Terminate(input).Ok? && BoundaryVerdict(input, Samples(input), Terminate(input).value)
  {
    VerdictOfSamples(input);
    SamplesReady(input);
    BoundaryFrom(input, Optimize(input).value);
  }

  ghost predicate BoundaryVerdict(input: Input, measured: seq<Sample>, r: SearchResult) {
    && !r.action.Test?
    && (r.action.Inconclusive? <==> NoEvidence(measured) && CapacityGroup(input, measured).None?)
    && (r.Terminal() ==> SelectsEvidence(r))
    && Judged(input, r.samples)
  }

  lemma BoundaryFrom(input: Input, optimized: SearchResult)
    requires Ready(input, optimized.samples) && Judged(input, optimized.samples)
    requires optimized.Terminal() ==> SelectsEvidence(optimized) && !NoEvidence(optimized.samples)
    ensures BoundaryVerdict(input, optimized.samples, TerminateFrom(input, optimized))
  {
    if !optimized.Terminal() {
      ConcludeBoundarySound(input, optimized);
      AlignSound(ConcludeBoundary(input, optimized));
    }
  }

  lemma ConcludeBoundarySound(input: Input, r: SearchResult)
    requires Ready(input, r.samples) && Judged(input, r.samples)
    ensures var c := ConcludeBoundary(input, r);
            && !c.action.Test? && c.profile == r.profile
            && (c.action.Inconclusive? <==> NoEvidence(r.samples) && CapacityGroup(input, r.samples).None?)
            && Indexed(c.samples) && Judged(input, c.samples)
            && (c.Terminal() ==> SelectsEvidence(c))
  {
    var ss := r.samples;
    ResolveSound(input, ss, Boundary(ss));
    var (action, selected, _) := Resolve(input, ss, Boundary(ss));
    var group := CapacityGroup(input, ss);
    if action.Inconclusive? && group.Some? {
      MarkKeeps(input, ss, group.value);
      var worst := MaxBy(group.value, (s: Sample) => Key2(s.m.delta, -(s.o.achieved as real)));
      assert worst.value in ss;
    }
  }

  lemma MarkKeeps(input: Input, ss: seq<Sample>, group: seq<Sample>)
    requires Judged(input, ss)
    ensures Judged(input, Mark(ss, group)) && Indexed(Mark(ss, group))
  {
    var marked := Mark(ss, group);
    forall i | 0 <= i < |marked| ensures JudgedAt(input, marked, i) && marked[i].index == i {
      assert JudgedAt(input, ss, i);
    }
  }

  // ----- the closed measuring loop

  /** A measurement as the apparatus returns it, at whatever rate was asked for. */
  ghost predicate Measured(o: Observation) {
    && 0 < o.realized <= MAX_RATE && 0 < o.achieved <= MAX_RATE
    && 0.0 <= o.icmpDelta <= MAX_LATENCY && 0.0 <= o.transportDelta <= MAX_LATENCY
    && 0.0 <= o.loss <= 100.0 && 0.0 <= o.cpu <= 100.0
  }

  /** The rate the search asks to measure next, if it asks for one. */
  ghost function Ask(input: Input): Option<nat> {
    if Valid(input) && Optimize(input).value.action.Test? then Optimize(input).value.next else None
  }

  /** What one answerable request guarantees; stated for any search strategy. */
  ghost predicate Bounded(ask: Input -> Option<nat>) {
    forall input | Valid(input) && ask(input).Some? ::
      && |input.observations| < input.maxAttempts
      && input.minimum <= ask(input).value <= input.upper
      && (!input.profile.VariableLink? ==>
           Measurements(Asked(input.observations), ask(input).value) < MAX_SAME_CANDIDATE)
      && SafeMeasurements(input.thresholds, input.observations, ask(input).value) < MAX_SAME_CANDIDATE
  }

  ghost function SafeMeasurements(t: Thresholds, obs: seq<Observation>, rate: nat): nat {
    if obs == [] then 0
    else
      var o := obs[|obs| - 1];
      SafeMeasurements(t, obs[..|obs| - 1], rate) + if o.candidate == rate && PassesSafety(t, o) then 1 else 0
  }

  ghost predicate SafeAgrees(t: Thresholds, ss: seq<Sample>, obs: seq<Observation>) {
    |ss| == |obs| && forall i | 0 <= i < |ss| :: ss[i].o == obs[i] && (ss[i].m.safe <==> PassesSafety(t, obs[i]))
  }

  lemma {:induction false} CountSafeMeasurements(t: Thresholds, ss: seq<Sample>, obs: seq<Observation>, rate: nat)
    requires SafeAgrees(t, ss, obs)
    ensures |SafeAt(ss, rate)| == SafeMeasurements(t, obs, rate)
    decreases |ss|
  {
    if ss != [] {
      CountSafeMeasurements(t, ss[..|ss| - 1], obs[..|obs| - 1], rate);
    }
  }

  lemma SafeOfSamples(input: Input, rate: nat)
    requires Valid(input)
    ensures |SafeAt(Samples(input), rate)| == SafeMeasurements(input.thresholds, input.observations, rate)
  {
    var ss := Samples(input);
    forall i | 0 <= i < |ss|
      ensures ss[i].o == input.observations[i]
      ensures ss[i].m.safe <==> PassesSafety(input.thresholds, input.observations[i])
    {
      assert ValidObservation(input, input.observations[i]);
      JudgeMeaning(input, input.observations[i]);
    }
    CountSafeMeasurements(input.thresholds, ss, input.observations, rate);
  }

  /** Safe measurements of a rate are among its measurements, and are all of them if none was unsafe. */
  lemma {:induction false} SafeAmongMeasurements(t: Thresholds, obs: seq<Observation>, rate: nat)
    ensures SafeMeasurements(t, obs, rate) <= Measurements(Asked(obs), rate)
    ensures (forall i | 0 <= i < |obs| :: obs[i].candidate == rate ==> PassesSafety(t, obs[i])) ==>
              SafeMeasurements(t, obs, rate) == Measurements(Asked(obs), rate)
  {
    if obs != [] {
      SafeAmongMeasurements(t, obs[..|obs| - 1], rate);
      assert Asked(obs)[..|obs| - 1] == Asked(obs[..|obs| - 1]);
    }
  }

  lemma AskIsBounded()
    ensures Bounded(Ask)
  {
    forall input | Valid(input) && Ask(input).Some?
      ensures |input.observations| < input.maxAttempts
      ensures input.minimum <= Ask(input).value <= input.upper
      ensures !input.profile.VariableLink? ==>
                Measurements(Asked(input.observations), Ask(input).value) < MAX_SAME_CANDIDATE
      ensures SafeMeasurements(input.thresholds, input.observations, Ask(input).value) < MAX_SAME_CANDIDATE {
      VerdictSound(input);
      CountIsMeasurements(Samples(input), Ask(input).value);
      assert Rates(Samples(input)) == Asked(input.observations);
      SafeOfSamples(input, Ask(input).value);
      SafeAmongMeasurements(input.thresholds, input.observations, Ask(input).value);
    }
  }

  ghost function Prefix(input: Input, k: nat): Input
    requires k <= |input.observations|
  {
    input.(observations := input.observations[..k])
  }

  /** Every measurement after the first answers the request made on the ones before it. */
  ghost predicate ClosedLoop(ask: Input -> Option<nat>, input: Input) {
    forall k | 1 <= k < |input.observations| :: Answered(ask, input, k)
  }

  ghost predicate Answered(ask: Input -> Option<nat>, input: Input, k: nat)
    requires k < |input.observations|
  {
    ask(Prefix(input, k)) == Some(input.observations[k].candidate) && Measured(input.observations[k])
  }

  /** How often a rate occurs in a list of measured rates. */
  ghost function Measurements(rates: seq<nat>, rate: nat): nat {
    if rates == [] then 0
    else Measurements(rates[..|rates| - 1], rate) + if rates[|rates| - 1] == rate then 1 else 0
  }

  ghost function Asked(obs: seq<Observation>): (r: seq<nat>)
    ensures |r| == |obs| && forall i | 0 <= i < |obs| :: r[i] == obs[i].candidate
  {
    seq(|obs|, i requires 0 <= i < |obs| => obs[i].candidate)
  }

  lemma CountIsMeasurements(ss: seq<Sample>, rate: nat)
    ensures Count(ss, rate) == Measurements(Rates(ss), rate)
  {
    if ss != [] {
      CountIsMeasurements(ss[..|ss| - 1], rate);
      assert Rates(ss)[..|ss| - 1] == Rates(ss[..|ss| - 1]);
    }
  }

  /** One turn of the loop: an answered request is again an admitted history. */
  lemma LoopTurn(ask: Input -> Option<nat>, input: Input, k: nat)
    requires Bounded(ask)
    requires 1 <= k < |input.observations| && Valid(Prefix(input, k))
    requires Answered(ask, input, k)
    ensures Valid(Prefix(input, k + 1)) && k < input.maxAttempts
    ensures !input.profile.VariableLink? ==>
              Measurements(Asked(input.observations[..k]), input.observations[k].candidate) < MAX_SAME_CANDIDATE
    ensures SafeMeasurements(input.thresholds, input.observations[..k], input.observations[k].candidate)
         < MAX_SAME_CANDIDATE
  {
    var before, after := Prefix(input, k), Prefix(input, k + 1);
    forall i | 0 <= i < k + 1 ensures ValidObservation(after, after.observations[i]) {
      if i < k { assert ValidObservation(before, before.observations[i]); }
    }
  }

  /** Every prefix of a closed loop is admitted and bounded. */
  lemma LoopBounded(ask: Input -> Option<nat>, input: Input, k: nat)
    requires Bounded(ask)
    requires 1 <= k <= |input.observations|
    requires Valid(Prefix(input, 1)) && ClosedLoop(ask, input)
    ensures Valid(Prefix(input, k)) && k <= input.maxAttempts
    ensures !input.profile.VariableLink? ==>
              forall rate :: Measurements(Asked(input.observations[..k]), rate) <= MAX_SAME_CANDIDATE
    ensures forall rate :: SafeMeasurements(input.thresholds, input.observations[..k], rate) <= MAX_SAME_CANDIDATE
  {
    var obs := input.observations[..k];
    var rates := Asked(obs);
    assert obs[..k - 1] == input.observations[..k - 1];
    if k > 1 {
      LoopBounded(ask, input, k - 1);
      LoopTurn(ask, input, k - 1);
      assert rates[..k - 1] == Asked(input.observations[..k - 1]);
    } else {
      assert rates[..0] == [] && obs[..0] == [];
    }
  }

  /**
   Feeding every request of the search back to it revalidates, stops within
   `maxAttempts` measurements with a verdict that asks for no more, and outside
   Variable Link measures no rate more than three times. Everywhere a rate has at
   most three safe measurements, so only an unsafe one allows a fourth.
   */
  lemma LoopStops(input: Input)
    requires input.observations != [] && Valid(Prefix(input, 1)) && ClosedLoop(Ask, input)
    ensures Valid(input) && |input.observations| <= input.maxAttempts
    ensures |input.observations| == input.maxAttempts ==> Ask(input).None?
    ensures !input.profile.VariableLink? ==>
              forall rate :: Measurements(Asked(input.observations), rate) <= MAX_SAME_CANDIDATE
    ensures forall rate :: FourthNeedsUnsafe(input.thresholds, input.observations, rate)
  {
    AskIsBounded();
    LoopBounded(Ask, input, |input.observations|);
    assert input.observations[..|input.observations|] == input.observations;
    forall rate ensures FourthNeedsUnsafe(input.thresholds, input.observations, rate) {
      SafeAmongMeasurements(input.thresholds, input.observations, rate);
    }
  }

  /** A rate measured more than three times has an unsafe measurement. */
  ghost predicate FourthNeedsUnsafe(t: Thresholds, obs: seq<Observation>, rate: nat) {
    && SafeMeasurements(t, obs, rate) <= MAX_SAME_CANDIDATE
    && (Measurements(Asked(obs), rate) > MAX_SAME_CANDIDATE ==>
          exists i | 0 <= i < |obs| :: obs[i].candidate == rate && !PassesSafety(t, obs[i]))
  }
}
