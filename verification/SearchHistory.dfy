/**
 The measured history of one Auto-Tune direction: what a measurement is, when a
 history is admitted, how a measurement is judged, and which measurement each
 selector keeps. Rates are in kbit/s, delays in milliseconds, shares in percent.
 */
module SearchHistory {
  import opened Selection

  const MAX_RATE: nat := 100_000_000
  const MAX_OBSERVATIONS: nat := 12
  const MAX_LATENCY: real := 60000.0
  const TRUST_FLOOR: real := 50.0

  datatype Profile = Gaming | GamingExtreme | BestOverall | VariableLink | Fair {
    function TargetDelta(): real {
      match this
      case Gaming => 5.0
      case GamingExtreme => 5.0
      case BestOverall => 30.0
      case VariableLink => 60.0
      case Fair => 200.0
    }

    function CapacityFloor(): real {
      match this
      case Gaming => 70.0
      case GamingExtreme => 70.0
      case BestOverall => 80.0
      case VariableLink => 70.0
      case Fair => 90.0
    }

    /** Retention `achieved * 100 / observedLow` at or above the capacity floor. */
    predicate KeepsFloor(achieved: nat, observedLow: nat) {
      var share := achieved as real * 100.0;
      match this
      case Gaming => share >= 70.0 * observedLow as real
      case GamingExtreme => share >= 70.0 * observedLow as real
      case BestOverall => share >= 80.0 * observedLow as real
      case VariableLink => share >= 70.0 * observedLow as real
      case Fair => share >= 90.0 * observedLow as real
    }

    predicate LatencyFirst() { Gaming? || GamingExtreme? }
  }

  datatype Observation = Observation(candidate: nat, realized: nat, achieved: nat,
                                     icmpDelta: real, transportDelta: real, censored: bool,
                                     loss: real, cpu: real)

  datatype Thresholds = Thresholds(realizationMin: real, realizationMax: real,
                                   retentionMin: real, lossMax: real, cpuMax: real)

  datatype Input = Input(profile: Profile, observedLow: nat, minimum: nat, upper: nat,
                         thresholds: Thresholds, uncertainty: real, maxAttempts: nat,
                         observations: seq<Observation>)

  datatype Metrics = Metrics(realization: real, retention: real, delta: real, gradeRank: nat,
                             reliable: bool, manualReviewable: bool, resourceSafe: bool,
                             safe: bool, capacityMet: bool, targetMet: bool, score: real)

  /** One measurement together with its position in the history and its judgement. */
  datatype Sample = Sample(index: nat, o: Observation, m: Metrics)

  predicate ValidObservation(input: Input, o: Observation) {
    && input.minimum <= o.candidate <= input.upper
    && 0 < o.realized <= MAX_RATE
    && 0 < o.achieved <= MAX_RATE
    && 0.0 <= o.icmpDelta <= MAX_LATENCY
    && 0.0 <= o.transportDelta <= MAX_LATENCY
    && 0.0 <= o.loss <= 100.0
    && 0.0 <= o.cpu <= 100.0
  }

  predicate ValidThresholds(t: Thresholds) {
    && 0.0 <= t.realizationMin <= t.realizationMax <= 200.0
    && 0.0 <= t.retentionMin <= 100.0
    && 0.0 <= t.lossMax <= 100.0
    && 0.0 <= t.cpuMax <= 100.0
  }

  /** The admission check shared by every entry point of the search. */
  predicate Valid(input: Input) {
    && 0 < input.observedLow <= MAX_RATE
    && 0 < input.minimum <= input.upper <= MAX_RATE
    && 1 <= |input.observations| <= MAX_OBSERVATIONS
    && 2 <= input.maxAttempts <= MAX_OBSERVATIONS
    && 0.0 <= input.uncertainty <= 10.0
    && ValidThresholds(input.thresholds)
    && forall i | 0 <= i < |input.observations| :: ValidObservation(input, input.observations[i])
  }

  /** Grade of a delay increase: A+, A, B, C, D and F are 0 to 5; bounds are exclusive. */
  function GradeRank(delta: real): nat {
    if delta < 5.0 then 0 else if delta < 30.0 then 1 else if delta < 60.0 then 2
    else if delta < 200.0 then 3 else if delta < 400.0 then 4 else 5
  }

  function Judge(input: Input, o: Observation): Metrics
    requires o.candidate > 0 && input.observedLow > 0
  {
    var t := input.thresholds;
    var realization := o.realized as real * 100.0 / o.candidate as real;
    var retention := o.achieved as real * 100.0 / input.observedLow as real;
    var delta := MaxReal(o.icmpDelta, o.transportDelta);
    var reliable := !o.censored && t.realizationMin <= realization <= t.realizationMax;
    var resourceSafe := o.loss <= t.lossMax;
    var manual := TRUST_FLOOR <= realization <= t.realizationMax && TRUST_FLOOR <= retention
                  && resourceSafe && (o.censored || realization < t.realizationMin);
    var target := input.profile.TargetDelta();
    var quality := if delta <= 0.0 then 1.0 else Clamp(target / delta, 0.0, 1.0);
    Metrics(realization, retention, delta, GradeRank(delta), reliable, manual, resourceSafe,
            reliable && resourceSafe, t.retentionMin <= retention,
            !o.censored && delta < target,
            (Clamp(retention / 100.0, 0.0, 1.0) + quality) * 50.0)
  }

  // What the judgement means, on the measurement alone.

  /** Realized between two shares of the shaped rate. */
  predicate Realizes(o: Observation, low: real, high: real) {
    low * o.candidate as real <= o.realized as real * 100.0 <= high * o.candidate as real
  }

  /** Uncensored, within the realization band and within the loss limit. */
  predicate PassesSafety(t: Thresholds, o: Observation) {
    !o.censored && Realizes(o, t.realizationMin, t.realizationMax) && o.loss <= t.lossMax
  }

  /** Uncensored with both delays under the profile's target. */
  predicate MeetsTarget(profile: Profile, o: Observation) {
    !o.censored && o.icmpDelta < profile.TargetDelta() && o.transportDelta < profile.TargetDelta()
  }

  /** Not controlled, but realized and retained at least by half and without loss: kept for manual review. */
  predicate WorthReview(input: Input, o: Observation) {
    && Realizes(o, 50.0, input.thresholds.realizationMax) && o.loss <= input.thresholds.lossMax
    && 50.0 * input.observedLow as real <= o.achieved as real * 100.0
    && (o.censored || o.realized as real * 100.0 < input.thresholds.realizationMin * o.candidate as real)
  }

  lemma ShareAtLeast(x: real, y: real, floor: real)
    requires y > 0.0
    ensures x / y >= floor <==> x >= floor * y
    ensures x / y <= floor <==> x <= floor * y
  {
    assert x == (x / y) * y;
    assert (x / y - floor) * y == x - floor * y;
    if x / y >= floor { assert (x / y - floor) * y >= 0.0; }
    if x / y <= floor { assert (floor - x / y) * y >= 0.0; }
    if x / y > floor { assert (x / y - floor) * y > 0.0; }
    if x / y < floor { assert (floor - x / y) * y > 0.0; }
  }

  /** The realized share of the shaped rate lies in a band exactly if the rates do. */
  lemma RealizesShare(o: Observation, low: real, high: real)
    requires o.candidate > 0
    ensures Realizes(o, low, high) <==> low <= o.realized as real * 100.0 / o.candidate as real <= high
    ensures o.realized as real * 100.0 / o.candidate as real < low
            <==> o.realized as real * 100.0 < low * o.candidate as real
  {
    ShareAtLeast(o.realized as real * 100.0, o.candidate as real, low);
    ShareAtLeast(o.realized as real * 100.0, o.candidate as real, high);
  }

  lemma SafeMeaning(input: Input, o: Observation)
    requires o.candidate > 0 && input.observedLow > 0
    ensures Judge(input, o).safe <==> PassesSafety(input.thresholds, o)
  {
    RealizesShare(o, input.thresholds.realizationMin, input.thresholds.realizationMax);
  }

  lemma ReviewMeaning(input: Input, o: Observation)
    requires o.candidate > 0 && input.observedLow > 0
    ensures Judge(input, o).manualReviewable <==> WorthReview(input, o)
  {
    RealizesShare(o, 50.0, input.thresholds.realizationMax);
    RealizesShare(o, input.thresholds.realizationMin, input.thresholds.realizationMax);
    ShareAtLeast(o.achieved as real * 100.0, input.observedLow as real, 50.0);
  }

  /** The judgement, on the measurement alone. */
  lemma JudgeMeaning(input: Input, o: Observation)
    requires o.candidate > 0 && input.observedLow > 0
    ensures var m := Judge(input, o);
            && (m.safe <==> PassesSafety(input.thresholds, o))
            && (m.safe <==> m.reliable && m.resourceSafe)
            && (m.resourceSafe <==> o.loss <= input.thresholds.lossMax)
            && (m.targetMet <==> MeetsTarget(input.profile, o))
            && (m.targetMet <==> !o.censored && m.delta < input.profile.TargetDelta())
            && (m.manualReviewable <==> WorthReview(input, o))
            && o.icmpDelta <= m.delta && o.transportDelta <= m.delta && m.delta in {o.icmpDelta, o.transportDelta}
  {
    SafeMeaning(input, o);
    ReviewMeaning(input, o);
  }

  function Samples(input: Input): (ss: seq<Sample>)
    requires Valid(input)
    ensures |ss| == |input.observations|
    ensures Judged(input, ss)
  {
    seq(|input.observations|, i requires 0 <= i < |input.observations| =>
      Sample(i, input.observations[i], Judge(input, input.observations[i])))
  }

  /**
   Every sample sits at its index and is the judgement of its measurement; a
   manual-review mark may have been added afterwards, never taken away.
   */
  predicate Judged(input: Input, ss: seq<Sample>) {
    forall i | 0 <= i < |ss| :: JudgedAt(input, ss, i)
  }

  predicate JudgedAt(input: Input, ss: seq<Sample>, i: nat)
    requires i < |ss|
  {
    && ss[i].index == i
    && ss[i].o.candidate > 0 && input.observedLow > 0
    && (Judge(input, ss[i].o).manualReviewable ==> ss[i].m.manualReviewable)
    && ss[i].m == Judge(input, ss[i].o).(manualReviewable := ss[i].m.manualReviewable)
  }

  /** The judgement of a sample, on its measurement; a manual-review mark says at least what it should. */
  lemma JudgedMeaning(input: Input, ss: seq<Sample>, s: Sample)
    requires Judged(input, ss) && s in ss
    ensures s.m.safe <==> PassesSafety(input.thresholds, s.o)
    ensures s.m.safe <==> s.m.reliable && s.m.resourceSafe
    ensures s.m.resourceSafe <==> s.o.loss <= input.thresholds.lossMax
    ensures s.m.targetMet <==> MeetsTarget(input.profile, s.o)
    ensures s.m.targetMet <==> !s.o.censored && s.m.delta < input.profile.TargetDelta()
    ensures WorthReview(input, s.o) ==> s.m.manualReviewable
    ensures s.o.icmpDelta <= s.m.delta && s.o.transportDelta <= s.m.delta
    ensures s.m.delta in {s.o.icmpDelta, s.o.transportDelta}
  {
    var i :| 0 <= i < |ss| && ss[i] == s;
    assert JudgedAt(input, ss, i);
    JudgeMeaning(input, s.o);
  }

  function Rates(ss: seq<Sample>): (r: seq<nat>)
    ensures |r| == |ss| && forall i | 0 <= i < |ss| :: r[i] == ss[i].o.candidate
  {
    seq(|ss|, i requires 0 <= i < |ss| => ss[i].o.candidate)
  }

  predicate Tested(ss: seq<Sample>, rate: nat) {
    exists s | s in ss :: s.o.candidate == rate
  }

  function At(ss: seq<Sample>, rate: nat): seq<Sample> {
    Filter(ss, (s: Sample) => s.o.candidate == rate)
  }

  function SafeAt(ss: seq<Sample>, rate: nat): seq<Sample> {
    Filter(ss, (s: Sample) => s.o.candidate == rate && s.m.safe)
  }

  function Count(ss: seq<Sample>, rate: nat): nat { |At(ss, rate)| }

  /** Rounds up to a multiple of 100 kbit/s, saturating at the global maximum. */
  function RoundedRateUp(rate: real): (r: nat)
    ensures r <= MAX_RATE
    ensures r == MAX_RATE || rate <= r as real
    ensures 100.0 <= rate ==> r as real < rate + 100.0
  {
    var rounded := Ceil(MaxReal(rate, 100.0) / 100.0) * 100;
    if rounded >= MAX_RATE then MAX_RATE else rounded
  }

  function Resolution(observedLow: nat): nat {
    RoundedRateUp(MaxReal(observedLow as real * 0.005, 100.0))
  }

  function Midpoint(lower: nat, upper: nat): nat
    requires lower <= upper
  {
    MinNat(RoundedRateUp(lower as real + (upper - lower) as real / 2.0), upper)
  }

  // The selectors. Each returns the sample itself; the search stores its index.

  function Safe(ss: seq<Sample>): seq<Sample> { Filter(ss, (s: Sample) => s.m.safe) }

  function Passing(ss: seq<Sample>): seq<Sample> {
    Filter(ss, (s: Sample) => s.m.safe && s.m.targetMet)
  }

  function BestTarget(ss: seq<Sample>): Option<Sample> {
    MaxBy(Passing(ss), (s: Sample) => Key2(s.o.achieved as real, -s.m.delta))
  }

  function BestNoCakeEffect(ss: seq<Sample>): Option<Sample> {
    MaxBy(Filter(ss, (s: Sample) => s.m.safe && s.m.targetMet && s.m.retention >= TRUST_FLOOR),
          (s: Sample) => Key2(s.o.achieved as real, -s.m.delta))
  }

  function BestTrustedQuality(ss: seq<Sample>): Option<Sample> {
    MinBy(Filter(ss, (s: Sample) => s.m.safe && s.m.retention >= TRUST_FLOOR),
          (s: Sample) => Key3(s.m.gradeRank as real, s.m.delta, -(s.o.achieved as real)))
  }

  function BestVariableCeiling(ss: seq<Sample>): Option<Sample> {
    OrElse(BestTarget(ss), BestTrustedQuality(ss))
  }

  function BestQuality(ss: seq<Sample>): Option<Sample> {
    MinBy(Safe(ss), (s: Sample) => Key3(s.m.gradeRank as real, -(s.o.achieved as real), s.m.delta))
  }

  function BestBalanced(ss: seq<Sample>): Option<Sample> {
    MaxBy(Safe(ss), (s: Sample) => Key2(s.m.score, s.o.achieved as real))
  }

  predicate WithinBand(uncertainty: real, top: nat, achieved: nat) {
    achieved as real >= top as real * (1.0 - uncertainty / 100.0)
  }

  function BestFair(uncertainty: real, ss: seq<Sample>): Option<Sample> {
    var top := MaxBy(Safe(ss), (s: Sample) => Key1(s.o.achieved as real));
    if top.None? then None else
    MinBy(Filter(ss, (s: Sample) => s.m.safe && WithinBand(uncertainty, top.value.o.achieved, s.o.achieved)),
          (s: Sample) => Key2(s.m.delta, -(s.o.achieved as real)))
  }

  function OrElse<T>(a: Option<T>, b: Option<T>): Option<T> { if a.Some? then a else b }

  function Index(s: Option<Sample>): Option<nat> { if s.Some? then Some(s.value.index) else None }

  /** The best measurement that passed safety, by the profile's own priority. */
  function BestSafe(input: Input, ss: seq<Sample>): Option<Sample> {
    match input.profile
    case Gaming => OrElse(BestTarget(ss), BestQuality(ss))
    case GamingExtreme => OrElse(BestTarget(ss), BestQuality(ss))
    case BestOverall => OrElse(BestTarget(ss), BestBalanced(ss))
    case VariableLink => OrElse(BestTarget(ss), BestBalanced(ss))
    case Fair => BestFair(input.uncertainty, ss)
  }

  function BestCensored(ss: seq<Sample>): Option<Sample> {
    MaxBy(Filter(ss, (s: Sample) => s.o.censored && s.m.manualReviewable),
          (s: Sample) => Key3(s.o.achieved as real, s.o.candidate as real, -s.m.delta))
  }

  predicate Repeatable(left: nat, right: nat) {
    var high := MaxNat(left, right);
    high > 0 && (high - MinNat(left, right)) as real * 100.0 / high as real <= 5.0
  }

  /** `s` is corroborated by another sample of `group` whose achieved rate repeats its own. */
  predicate Corroborated(group: seq<Sample>, s: Sample) {
    exists peer | peer in group :: peer.index != s.index && Repeatable(s.o.achieved, peer.o.achieved)
  }

  function ReviewableAt(ss: seq<Sample>, rate: nat): seq<Sample> {
    Filter(ss, (s: Sample) => s.o.candidate == rate && s.m.manualReviewable && s.m.delta <= 200.0)
  }

  datatype LowRealization = LowRealization(worst: Sample, conservative: nat)

  /**
   The corroborated low-realization evidence at one rate: at least two clean
   samples between the trust floor and the realization floor that repeat each other.
   */
  function LowRealizationAt(ss: seq<Sample>, rate: nat): Option<LowRealization> {
    var group := ReviewableAt(ss, rate);
    if |group| < 2 then None else
    var repeatable := Filter(group, (s: Sample) => Corroborated(group, s));
    if |repeatable| < 2 then None else
    var low := MinBy(repeatable, (s: Sample) => Key1(s.o.achieved as real));
    var worst := MaxBy(repeatable, (s: Sample) => Key2(s.m.delta, -(s.o.achieved as real)));
    Some(LowRealization(worst.value, low.value.o.achieved))
  }

  function LowRealizations(ss: seq<Sample>, rates: seq<nat>): (r: seq<LowRealization>)
    ensures forall x | x in r :: exists rate | rate in rates :: LowRealizationAt(ss, rate) == Some(x)
    ensures forall rate | rate in rates && LowRealizationAt(ss, rate).Some? ::
              LowRealizationAt(ss, rate).value in r
  {
    if rates == [] then [] else
    var rest := LowRealizations(ss, rates[..|rates| - 1]);
    var x := LowRealizationAt(ss, rates[|rates| - 1]);
    if x.Some? then rest + [x.value] else rest
  }

  function BestLowRealization(ss: seq<Sample>): Option<Sample> {
    var best := MaxBy(LowRealizations(ss, SortedDistinct(Rates(ss))),
      (x: LowRealization) => Key(Bit(x.worst.m.targetMet), x.conservative as real,
                                 x.worst.o.candidate as real, -x.worst.m.delta));
    if best.None? then None else Some(best.value.worst)
  }
}
