/**
 What each selector of the search prefers, measurement against measurement, and
 what the grades and the balanced score that some of them compare mean.
 */
module SearchSelectors {
  import opened Selection
  import opened SearchHistory
  import opened Review
  import opened Search

  /** More throughput, and at equal throughput no more delay. */
  predicate Wider(a: Sample, b: Sample) {
    a.o.achieved > b.o.achieved || (a.o.achieved == b.o.achieved && a.m.delta <= b.m.delta)
  }

  /** Less delay, and at equal delay no less throughput. */
  predicate Quicker(a: Sample, b: Sample) {
    a.m.delta < b.m.delta || (a.m.delta == b.m.delta && a.o.achieved >= b.o.achieved)
  }

  predicate BetterGraded(a: Sample, b: Sample) {
    a.m.gradeRank < b.m.gradeRank
  }

  predicate Trusted(s: Sample) { s.m.safe && s.m.retention >= 50.0 }

  /** The best target is the widest of the safe measurements that meet the target. */
  lemma BestTargetIsWidest(ss: seq<Sample>, t: Sample)
    requires t in ss && t.m.safe && t.m.targetMet
    ensures BestTarget(ss).Some? && BestTarget(ss).value in ss && Wider(BestTarget(ss).value, t)
    ensures BestTarget(ss).value.m.safe && BestTarget(ss).value.m.targetMet
  {
    assert t in Passing(ss);
    MaxByIsMax(Passing(ss), (s: Sample) => Key2(s.o.achieved as real, -s.m.delta), t);
  }

  /** The best quality is the widest of the best graded safe measurements. */
  lemma BestQualityIsBestGraded(ss: seq<Sample>, t: Sample)
    requires t in ss && t.m.safe
    ensures BestQuality(ss).Some? && BestQuality(ss).value in ss && BestQuality(ss).value.m.safe
    ensures var b := BestQuality(ss).value;
            BetterGraded(b, t) || (b.m.gradeRank == t.m.gradeRank && Wider(b, t))
  {
    assert t in Safe(ss);
    MinByIsMin(Safe(ss), (s: Sample) => Key3(s.m.gradeRank as real, -(s.o.achieved as real), s.m.delta), t);
  }

  /** The trusted quality is the quickest of the best graded safe measurements that retained half of observed-low. */
  lemma TrustedQualityIsBestGraded(ss: seq<Sample>, t: Sample)
    requires t in ss && Trusted(t)
    ensures BestTrustedQuality(ss).Some? && BestTrustedQuality(ss).value in ss && Trusted(BestTrustedQuality(ss).value)
    ensures var b := BestTrustedQuality(ss).value;
            BetterGraded(b, t) || (b.m.gradeRank == t.m.gradeRank && Quicker(b, t))
  {
    MinByIsMin(Filter(ss, (s: Sample) => s.m.safe && s.m.retention >= TRUST_FLOOR),
               (s: Sample) => Key3(s.m.gradeRank as real, s.m.delta, -(s.o.achieved as real)), t);
  }

  /** Without an effect of CAKE: the widest trusted measurement that meets the target. */
  lemma NoCakeEffectIsWidest(ss: seq<Sample>, t: Sample)
    requires t in ss && Trusted(t) && t.m.targetMet
    ensures BestNoCakeEffect(ss).Some? && BestNoCakeEffect(ss).value in ss && Wider(BestNoCakeEffect(ss).value, t)
    ensures Trusted(BestNoCakeEffect(ss).value) && BestNoCakeEffect(ss).value.m.targetMet
  {
    MaxByIsMax(Filter(ss, (s: Sample) => s.m.safe && s.m.targetMet && s.m.retention >= TRUST_FLOOR),
               (s: Sample) => Key2(s.o.achieved as real, -s.m.delta), t);
  }

  /** The balanced choice has the highest score of the safe measurements, and then the most throughput. */
  lemma BestBalancedScoresHighest(ss: seq<Sample>, t: Sample)
    requires t in ss && t.m.safe
    ensures BestBalanced(ss).Some? && BestBalanced(ss).value in ss && BestBalanced(ss).value.m.safe
    ensures var b := BestBalanced(ss).value;
            b.m.score > t.m.score || (b.m.score == t.m.score && b.o.achieved >= t.o.achieved)
  {
    assert t in Safe(ss);
    MaxByIsMax(Safe(ss), (s: Sample) => Key2(s.m.score, s.o.achieved as real), t);
  }

  /** Not below another measurement by more than the uncertainty. */
  predicate InBand(uncertainty: real, a: Sample, b: Sample) {
    a.o.achieved as real * 100.0 >= b.o.achieved as real * (100.0 - uncertainty)
  }

  /** The fair choice is within the uncertainty of every safe measurement, and the quickest such one. */
  lemma BestFairIsQuickest(uncertainty: real, ss: seq<Sample>, t: Sample)
    requires t in ss && t.m.safe && 0.0 <= uncertainty <= 10.0
    ensures BestFair(uncertainty, ss).Some? && BestFair(uncertainty, ss).value in ss
    ensures var b := BestFair(uncertainty, ss).value;
            && b.m.safe && InBand(uncertainty, b, t)
            && ((forall s | s in ss && s.m.safe :: InBand(uncertainty, t, s)) ==> Quicker(b, t))
  {
    var top := MaxBy(Safe(ss), (s: Sample) => Key1(s.o.achieved as real)).value;
    assert t in Safe(ss) && top in Safe(ss);
    MaxByIsMax(Safe(ss), (s: Sample) => Key1(s.o.achieved as real), t);
    var band := Filter(ss, (s: Sample) => s.m.safe && WithinBand(uncertainty, top.o.achieved, s.o.achieved));
    BandMeans(uncertainty, top, top);
    assert top in band;
    var b := BestFair(uncertainty, ss).value;
    assert b in band;
    BandMeans(uncertainty, b, top);
    BandBelow(uncertainty, b, top, t);
    if forall s | s in ss && s.m.safe :: InBand(uncertainty, t, s) {
      BandMeans(uncertainty, t, top);
      assert t in band;
      MinByIsMin(band, (s: Sample) => Key2(s.m.delta, -(s.o.achieved as real)), t);
    }
  }

  lemma BandMeans(uncertainty: real, a: Sample, top: Sample)
    requires 0.0 <= uncertainty <= 10.0
    ensures WithinBand(uncertainty, top.o.achieved, a.o.achieved) <==> InBand(uncertainty, a, top)
    ensures a == top ==> InBand(uncertainty, a, top)
  {
    var achieved := top.o.achieved as real;
    assert achieved * (1.0 - uncertainty / 100.0) * 100.0 == achieved * (100.0 - uncertainty);
    if a == top { assert top.o.achieved as real * uncertainty >= 0.0; }
  }

  lemma BandBelow(uncertainty: real, a: Sample, top: Sample, t: Sample)
    requires 0.0 <= uncertainty <= 10.0 && InBand(uncertainty, a, top) && t.o.achieved <= top.o.achieved
    ensures InBand(uncertainty, a, t)
  {
    ProductAtLeast(top.o.achieved as real, t.o.achieved as real, 100.0 - uncertainty);
  }

  lemma ProductAtLeast(x: real, y: real, factor: real)
    requires x >= y && factor >= 0.0
    ensures x * factor >= y * factor
  {
    assert (x - y) * factor >= 0.0;
  }

  /** The censored choice achieved the most, at equal throughput at the highest rate, and then with the least delay. */
  lemma BestCensoredIsWidest(ss: seq<Sample>, t: Sample)
    requires t in ss && t.o.censored && t.m.manualReviewable
    ensures BestCensored(ss).Some? && BestCensored(ss).value in ss
    ensures var b := BestCensored(ss).value;
            && b.o.censored && b.m.manualReviewable
            && (b.o.achieved > t.o.achieved
                || (b.o.achieved == t.o.achieved
                    && (b.o.candidate > t.o.candidate
                        || (b.o.candidate == t.o.candidate && b.m.delta <= t.m.delta))))
  {
    MaxByIsMax(Filter(ss, (s: Sample) => s.o.censored && s.m.manualReviewable),
               (s: Sample) => Key3(s.o.achieved as real, s.o.candidate as real, -s.m.delta), t);
  }

  /** The low-realization evidence at a rate is its slowest and its least achieving corroborated measurement. */
  lemma LowRealizationIsWorst(ss: seq<Sample>, rate: nat, t: Sample)
    requires LowRealizationAt(ss, rate).Some? && t in ReviewableAt(ss, rate) && Corroborated(ReviewableAt(ss, rate), t)
    ensures var x := LowRealizationAt(ss, rate).value;
            && x.conservative <= t.o.achieved && x.worst.m.delta >= t.m.delta
            && x.worst in ReviewableAt(ss, rate) && Corroborated(ReviewableAt(ss, rate), x.worst)
  {
    var group := ReviewableAt(ss, rate);
    var repeatable := Filter(group, (s: Sample) => Corroborated(group, s));
    ExtremesOf(repeatable, t);
  }

  lemma ExtremesOf(group: seq<Sample>, t: Sample)
    requires t in group
    ensures MinBy(group, (s: Sample) => Key1(s.o.achieved as real)).value.o.achieved <= t.o.achieved
    ensures MaxBy(group, (s: Sample) => Key2(s.m.delta, -(s.o.achieved as real))).value.m.delta >= t.m.delta
  {
    MinByIsMin(group, (s: Sample) => Key1(s.o.achieved as real), t);
    MaxByIsMax(group, (s: Sample) => Key2(s.m.delta, -(s.o.achieved as real)), t);
  }

  /** Among rates, one whose slowest measurement meets the target comes first, and then the most throughput. */
  lemma BestLowRealizationPrefers(ss: seq<Sample>, rate: nat)
    requires rate in Rates(ss) && LowRealizationAt(ss, rate).Some?
    ensures BestLowRealization(ss).Some?
    ensures var b, x := BestLowRealization(ss).value, LowRealizationAt(ss, rate).value;
            exists other | other in Rates(ss) && LowRealizationAt(ss, other).Some? ::
              var y := LowRealizationAt(ss, other).value;
              && y.worst == b
              && (x.worst.m.targetMet ==> b.m.targetMet)
              && (x.worst.m.targetMet == b.m.targetMet ==> y.conservative >= x.conservative)
  {
    var x := LowRealizationAt(ss, rate).value;
    var all := LowRealizations(ss, SortedDistinct(Rates(ss)));
    var key := (x: LowRealization) => Key(Bit(x.worst.m.targetMet), x.conservative as real,
                                          x.worst.o.candidate as real, -x.worst.m.delta);
    MaxByIsMax(all, key, x);
    var y := MaxBy(all, key).value;
    assert y in all;
    var other :| other in SortedDistinct(Rates(ss)) && LowRealizationAt(ss, other) == Some(y);
  }

  /** Without a safe measurement the fair profile keeps the one with the most throughput within the loss limit. */
  lemma FairFallsBack(input: Input, ss: seq<Sample>, t: Sample)
    requires input.profile.Fair? && BestFair(input.uncertainty, ss).None? && t in ss && t.m.resourceSafe
    ensures ProfileSelected(input, ss).Some? && ProfileSelected(input, ss).value in ss
    ensures var b := ProfileSelected(input, ss).value; b.m.resourceSafe && b.o.achieved >= t.o.achieved
  {
    MaxByIsMax(Filter(ss, (s: Sample) => s.m.resourceSafe), (s: Sample) => Key1(s.o.achieved as real), t);
  }

  /** Of the groups limited by the link the one whose least throughput is the most is reviewed. */
  lemma CapacityGroupIsWidest(input: Input, ss: seq<Sample>, g: seq<Sample>, s: Sample)
    requires CapacityGroup(input, ss).Some? && g in CapacityGroups(input, ss, SortedDistinct(Rates(ss)))
    requires s in CapacityGroup(input, ss).value
    ensures exists t | t in g :: t.o.achieved <= s.o.achieved
  {
    var groups := CapacityGroups(input, ss, SortedDistinct(Rates(ss)));
    var best := CapacityGroup(input, ss).value;
    MaxByIsMax(groups, GroupKey, g);
    var t := MinBy(g, (s: Sample) => Key1(s.o.achieved as real)).value;
    assert t in g && best in groups;
    MinByIsMin(best, (s: Sample) => Key1(s.o.achieved as real), s);
  }

  // ----- grades and scores

  /** A grade is the number of bounds that the delay reaches. */
  lemma GradeCountsBounds(delta: real)
    ensures GradeRank(delta)
            == (if delta >= 5.0 then 1 else 0) + (if delta >= 30.0 then 1 else 0) + (if delta >= 60.0 then 1 else 0)
               + (if delta >= 200.0 then 1 else 0) + (if delta >= 400.0 then 1 else 0)
  {}

  /** The retained share of observed-low, at most all of it. */
  function Retained(achieved: nat, observedLow: nat): real
    requires observedLow > 0
  {
    if achieved >= observedLow then 1.0 else achieved as real / observedLow as real
  }

  /** Full up to the target, and then in inverse proportion to the delay. */
  function Promptness(delta: real, target: real): real
    requires delta > target ==> delta > 0.0
  {
    if delta <= target then 1.0 else target / delta
  }

  lemma RetainedShare(achieved: real, low: real)
    requires low > 0.0 && achieved >= 0.0
    ensures Clamp(achieved * 100.0 / low / 100.0, 0.0, 1.0) == if achieved >= low then 1.0 else achieved / low
  {
    ShareAtLeast(achieved, low, 1.0);
    ShareAtLeast(achieved, low, 0.0);
    HundredTimes(achieved, low);
  }

  lemma HundredTimes(x: real, y: real)
    requires y > 0.0
    ensures x * 100.0 / y == x / y * 100.0
  {
    var share, hundred := x / y, x * 100.0 / y;
    assert share * y == x && hundred * y == x * 100.0;
    assert (hundred - share * 100.0) * y == 0.0;
  }

  lemma PromptShare(delta: real, target: real)
    requires target > 0.0 && delta > 0.0
    ensures Clamp(target / delta, 0.0, 1.0) == if delta <= target then 1.0 else target / delta
  {
    ShareAtLeast(target, delta, 1.0);
    ShareAtLeast(target, delta, 0.0);
  }

  /** The balanced score: half for the retained throughput, half for the delay. */
  lemma ScoreMeans(input: Input, o: Observation)
    requires o.candidate > 0 && input.observedLow > 0
    ensures var m := Judge(input, o);
            m.score == 50.0 * Retained(o.achieved, input.observedLow)
                       + 50.0 * Promptness(m.delta, input.profile.TargetDelta())
  {
    RetainedShare(o.achieved as real, input.observedLow as real);
    var delta := MaxReal(o.icmpDelta, o.transportDelta);
    if delta > 0.0 { PromptShare(delta, input.profile.TargetDelta()); }
  }
}
