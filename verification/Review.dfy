/**
 The operator-visible review set of a terminal search, and the alignment that
 makes the search summary and the first review option name the same measurement.
 */
module Review {
  import opened Selection
  import opened SearchHistory

  const MAX_OPTIONS: nat := 3

  datatype Action = Test | Complete | Fallback | Inconclusive

  datatype Reason =
    | RepeatUnreliableRealization | RepeatedRealizationUnreliable
    | AttemptLimitControlled | RepeatLowRealization | LatencyFirstDescent
    | LowRealizationNotRepeatable | LowerToEstablishControl | LowerVariableToEstablishControl
    | BisectControlledBoundary | MaximumControlledBounded | UnableToEstablishControl
    | RepeatResourceUnsafe | ResourceSafetyNotResolved
    | AttemptLimit | AttemptLimitWithoutSafe
    | RaiseTowardThroughputFloor | BisectThroughputBoundary | TestThroughputUpper
    | ThroughputNoSafe | ThroughputBounded
    | RaiseToCapacityFloor | TestUpperForCapacityFloor | TargetConflictsWithCapacityFloor
    | BisectQualityBoundary | MaximumTargetGradeBounded | TestQualityUpper
    | MaximumTargetGradeConfirmed | SearchLowerQuality | NoSafeCandidate
    | TargetUnreachable
    | BoundedLowRealizationReview | CensoredReview | ConservativeReviewDowngrade
    | LowerAfterResourceLimit | RepeatResourceUnsafeVariable | VariableResourceInconclusive
    | RepeatUncontrolledVariable | VariableRealizationInconclusive
    | RepeatNoisyVariable | NoisySafeReview | NoisyDidNotConverge
    | RepeatNonmonotonicVariable | NonmonotonicAfterRetries
    | QueueOutsideCake | QueueOutsideCakeTargetUnmet | MeasuredKnee
    | FloorReached | FloorReachedWithoutKnee | AttemptLimitBeforeKnee
    | VariableCannotProgress | DescendFixedStep
    | PhysicalCapacityReview | MeasuredBoundary

  datatype SearchResult = SearchResult(profile: Profile, observedLow: nat, action: Action, reason: Reason,
                                       next: Option<nat>, selected: Option<nat>,
                                       lowerPass: Option<nat>, upperFail: Option<nat>,
                                       resolution: nat, maxAttempts: nat, samples: seq<Sample>,
                                       explorationMinimum: nat, runtimeMinimum: Option<nat>,
                                       kneeDetected: bool)
  {
    predicate Terminal() { action.Complete? || action.Fallback? }
    function Basis(): ReviewBasis { ReviewBasis(profile, observedLow, samples) }
  }

  /** The part of a result that the review set is computed from. */
  datatype ReviewBasis = ReviewBasis(profile: Profile, observedLow: nat, samples: seq<Sample>)

  /** One exact rate with its worst retained measurement and its lowest achieved rate. */
  datatype Candidate = Candidate(worst: Sample, conservative: nat, controlled: bool, capacityMet: bool) {
    function Rate(): nat { worst.o.candidate }
    function Delta(): real { worst.m.delta }
    predicate AutoApply() { controlled && !worst.o.censored && worst.m.targetMet && capacityMet }
  }

  datatype Role = Recommended | QualityFirst | ThroughputFirst | BalancedAlternative

  datatype ReviewOption = ReviewOption(role: Role, candidate: Candidate)

  /** The measurements that speak for a rate, and whether they were controlled. */
  function Evidence(ss: seq<Sample>, rate: nat): Option<(seq<Sample>, bool)> {
    EvidenceFrom(At(ss, rate), SafeAt(ss, rate), CensoredAt(ss, rate), LowRealizationAt(ss, rate).Some?,
                 CorroboratedAt(ss, rate))
  }

  function CensoredAt(ss: seq<Sample>, rate: nat): seq<Sample> {
    Filter(At(ss, rate), (s: Sample) => s.o.censored && s.m.manualReviewable)
  }

  function CorroboratedAt(ss: seq<Sample>, rate: nat): seq<Sample> {
    var manual := Filter(At(ss, rate), (s: Sample) => s.m.manualReviewable);
    Filter(manual, (s: Sample) => s.m.delta <= 200.0 && Corroborated(manual, s))
  }

  /** Controlled measurements speak first, then censored ones, then a corroborated low realization. */
  function EvidenceFrom(exact: seq<Sample>, safe: seq<Sample>, censored: seq<Sample>, low: bool,
                        corroborated: seq<Sample>): Option<(seq<Sample>, bool)>
  {
    if exact == [] || exists s | s in exact :: !s.m.resourceSafe then None
    else if safe != [] then Some((safe, true))
    else if censored != [] then Some((censored, false))
    else if low then Some((corroborated, false))
    else None
  }

  /** Lowest achieved rate and worst delay of a group; ties go to the lower achieved rate. */
  function Summarize(b: ReviewBasis, group: seq<Sample>, controlled: bool): (c: Candidate)
    requires group != []
    ensures c.worst in group && c.controlled == controlled
  {
    var low := MinBy(group, (s: Sample) => Key1(s.o.achieved as real));
    var worst := MaxBy(group, (s: Sample) => Key2(s.m.delta, -(s.o.achieved as real)));
    Candidate(worst.value, low.value.o.achieved, controlled,
              b.profile.KeepsFloor(low.value.o.achieved, b.observedLow))
  }

  lemma SummaryIsWorst(b: ReviewBasis, group: seq<Sample>, controlled: bool, s: Sample)
    requires s in group
    ensures var c := Summarize(b, group, controlled);
            c.conservative <= s.o.achieved && s.m.delta <= c.Delta()
  {
    MinByIsMin(group, (s: Sample) => Key1(s.o.achieved as real), s);
    MaxByIsMax(group, (s: Sample) => Key2(s.m.delta, -(s.o.achieved as real)), s);
  }

  function CandidateAt(b: ReviewBasis, rate: nat): (c: Option<Candidate>)
    ensures c.Some? ==> c.value.Rate() == rate && c.value.worst in b.samples
    ensures c.Some? ==> if c.value.controlled then c.value.worst.m.safe else c.value.worst.m.manualReviewable
  {
    var evidence := Evidence(b.samples, rate);
    if evidence.None? || evidence.value.0 == [] then None
    else
      EvidenceFacts(b.samples, rate);
      Some(Summarize(b, evidence.value.0, evidence.value.1))
  }

  function CandidatesAt(b: ReviewBasis, rates: seq<nat>): (cs: seq<Candidate>)
    ensures forall c | c in cs :: c.Rate() in rates && CandidateAt(b, c.Rate()) == Some(c)
    ensures forall rate | rate in rates && CandidateAt(b, rate).Some? :: CandidateAt(b, rate).value in cs
  {
    if rates == [] then [] else
    var rest := CandidatesAt(b, rates[..|rates| - 1]);
    var c := CandidateAt(b, rates[|rates| - 1]);
    if c.Some? then rest + [c.value] else rest
  }

  /** The reviewable rates in increasing order. */
  function Candidates(b: ReviewBasis): seq<Candidate> {
    CandidatesAt(b, SortedDistinct(Rates(b.samples)))
  }

  predicate Dominates(d: Candidate, c: Candidate) {
    && d.Rate() != c.Rate()
    && (c.controlled ==> d.controlled)
    && d.conservative >= c.conservative
    && d.Delta() <= c.Delta()
    && (d.controlled != c.controlled || d.conservative > c.conservative || d.Delta() < c.Delta())
  }

  function Frontier(cs: seq<Candidate>): seq<Candidate> {
    Filter(cs, (c: Candidate) => !exists d | d in cs :: Dominates(d, c))
  }

  function BalancedScore(b: ReviewBasis, c: Candidate): real {
    var throughput := if b.observedLow == 0 then 1.0
                      else Clamp(c.conservative as real / b.observedLow as real, 0.0, 1.0);
    throughput + Clamp(b.profile.TargetDelta() / MaxReal(c.Delta(), 0.001), 0.0, 1.0)
  }

  function BestThroughput(frontier: seq<Candidate>): Option<Candidate> {
    MaxBy(frontier, (c: Candidate) => Key3(c.conservative as real, -c.Delta(), c.Rate() as real))
  }

  function BestDelay(frontier: seq<Candidate>): Option<Candidate> {
    MinBy(frontier, (c: Candidate) => Key3(c.Delta(), -(c.conservative as real), -(c.Rate() as real)))
  }

  function WithRate(frontier: seq<Candidate>, rate: nat): (c: Option<Candidate>)
    ensures c.Some? ==> c.value in frontier && c.value.Rate() == rate
    ensures c.None? ==> forall d | d in frontier :: d.Rate() != rate
  {
    if frontier == [] then None
    else if frontier[0].Rate() == rate then Some(frontier[0])
    else WithRate(frontier[1..], rate)
  }

  function SelectedRate(r: SearchResult): Option<nat> {
    if r.selected.Some? && r.selected.value < |r.samples|
    then Some(r.samples[r.selected.value].o.candidate) else None
  }

  function ProfileChoice(b: ReviewBasis, frontier: seq<Candidate>): Option<Candidate> {
    match b.profile
    case Fair => BestThroughput(frontier)
    case BestOverall =>
      MaxBy(frontier, (c: Candidate) => Key2(BalancedScore(b, c), c.conservative as real))
    case _ =>
      MaxBy(frontier, (c: Candidate) => Key3(Bit(c.worst.m.targetMet), c.conservative as real, -c.Delta()))
  }

  function Choose(r: SearchResult, frontier: seq<Candidate>): Option<Candidate> {
    var rate := SelectedRate(r);
    OrElse(if rate.Some? then WithRate(frontier, rate.value) else None, ProfileChoice(r.Basis(), frontier))
  }

  predicate Offered(options: seq<ReviewOption>, rate: nat) {
    exists o | o in options :: o.candidate.Rate() == rate
  }

  function Offer(options: seq<ReviewOption>, role: Role, c: Option<Candidate>): seq<ReviewOption> {
    if c.None? || Offered(options, c.value.Rate()) then options
    else options + [ReviewOption(role, c.value)]
  }

  /** Stable insertion, highest score first. */
  function InsertByScore(b: ReviewBasis, s: seq<Candidate>, x: Candidate): (t: seq<Candidate>)
    ensures multiset(t) == multiset(s) + multiset{x}
  {
    var key := (c: Candidate) => Key2(BalancedScore(b, c), c.conservative as real);
    if s == [] || !Le(key(x), key(s[0])) then [x] + s
    else
      assert s == [s[0]] + s[1..];
      [s[0]] + InsertByScore(b, s[1..], x)
  }

  function SortByScore(b: ReviewBasis, s: seq<Candidate>): (t: seq<Candidate>)
    ensures multiset(t) == multiset(s)
  {
    if s == [] then [] else
      assert s == s[..|s| - 1] + [s[|s| - 1]];
      InsertByScore(b, SortByScore(b, s[..|s| - 1]), s[|s| - 1])
  }

  function Balanced(cs: seq<Candidate>): (os: seq<ReviewOption>)
    ensures |os| == |cs|
    ensures forall i | 0 <= i < |cs| :: os[i] == ReviewOption(BalancedAlternative, cs[i])
  {
    seq(|cs|, i requires 0 <= i < |cs| => ReviewOption(BalancedAlternative, cs[i]))
  }

  function Named(r: SearchResult, frontier: seq<Candidate>): seq<ReviewOption> {
    Offer(Offer(Offer([], Recommended, Choose(r, frontier)),
                QualityFirst, BestDelay(frontier)),
          ThroughputFirst, BestThroughput(frontier))
  }

  function Remaining(b: ReviewBasis, frontier: seq<Candidate>, named: seq<ReviewOption>): seq<Candidate> {
    SortByScore(b, Filter(frontier, (c: Candidate) => !Offered(named, c.Rate())))
  }

  function Truncate(options: seq<ReviewOption>): seq<ReviewOption> {
    options[..MinNat(|options|, MAX_OPTIONS)]
  }

  function OptionsFrom(r: SearchResult, frontier: seq<Candidate>): seq<ReviewOption> {
    if frontier == [] then [] else
    var named := Named(r, frontier);
    Truncate(named + Balanced(Remaining(r.Basis(), frontier, named)))
  }

  function ReviewOptions(r: SearchResult): seq<ReviewOption> {
    if r.Terminal() then OptionsFrom(r, Frontier(Candidates(r.Basis()))) else []
  }

  predicate Certified(r: SearchResult, s: Sample) {
    s.m.safe && (r.profile.Fair? || s.m.targetMet)
  }

  function AlignTo(r: SearchResult, options: seq<ReviewOption>): SearchResult {
    if options == [] then r else
    var worst := options[0].candidate.worst;
    var moved := r.(selected := Some(worst.index));
    if r.action.Complete? && !Certified(r, worst)
    then moved.(action := Fallback, reason := ConservativeReviewDowngrade) else moved
  }

  function Align(r: SearchResult): SearchResult { AlignTo(r, ReviewOptions(r)) }

  /** `validate_review_alignment`, as the condition under which it returns `Ok`. */
  predicate ReviewAligned(r: SearchResult) {
    r.Terminal() ==>
      var options := ReviewOptions(r);
      && r.selected.Some?
      && options != []
      && options[0].role == Recommended
      && options[0].candidate.worst.index == r.selected.value
      && r.selected.value < |r.samples|
      && r.samples[r.selected.value].o.candidate == options[0].candidate.Rate()
      && r.samples[r.selected.value].o.censored == options[0].candidate.worst.o.censored
      && (r.action.Complete? ==> Certified(r, r.samples[r.selected.value]))
  }

  /** Samples sit at their own index, as every search result builds them. */
  predicate Indexed(ss: seq<Sample>) {
    forall i | 0 <= i < |ss| :: ss[i].index == i
  }

  // ----- what a candidate stands on

  lemma EvidenceFacts(ss: seq<Sample>, rate: nat)
    requires Evidence(ss, rate).Some?
    ensures var (group, controlled) := Evidence(ss, rate).value;
            forall s | s in group ::
              && s in ss && s.o.candidate == rate
              && (controlled ==> s.m.safe) && (!controlled ==> s.m.manualReviewable)
  {}

  /** The candidates are exactly the rates with evidence, one candidate each. */
  lemma CandidateListed(b: ReviewBasis, c: Candidate)
    ensures c in Candidates(b) <==> CandidateAt(b, c.Rate()) == Some(c)
  {
    if CandidateAt(b, c.Rate()) == Some(c) {
      var i :| 0 <= i < |b.samples| && b.samples[i] == c.worst;
      assert Rates(b.samples)[i] == c.Rate();
    }
  }

  /** Two different clean measurements at one rate repeat each other between the trust and realization floors. */
  ghost predicate CorroboratedPair(ss: seq<Sample>, rate: nat) {
    exists a, b | a in ss && b in ss ::
      && a.index != b.index && a.o.candidate == rate && b.o.candidate == rate
      && a.m.manualReviewable && b.m.manualReviewable
      && a.m.delta <= 200.0 && b.m.delta <= 200.0
      && Repeatable(a.o.achieved, b.o.achieved)
  }

  lemma PairIffLowRealization(ss: seq<Sample>, rate: nat)
    ensures LowRealizationAt(ss, rate).Some? <==> CorroboratedPair(ss, rate)
    ensures CorroboratedPair(ss, rate) ==> rate in SortedDistinct(Rates(ss))
    ensures LowRealizationAt(ss, rate).Some? ==>
              var w := LowRealizationAt(ss, rate).value.worst; w in ss && w.m.manualReviewable
  {
    var group := ReviewableAt(ss, rate);
    if CorroboratedPair(ss, rate) {
      var a, b :| a in ss && b in ss && a.index != b.index && a.o.candidate == rate && b.o.candidate == rate
        && a.m.manualReviewable && b.m.manualReviewable && a.m.delta <= 200.0 && b.m.delta <= 200.0
        && Repeatable(a.o.achieved, b.o.achieved);
      PairIsRepeatable(group, a, b);
      var i :| 0 <= i < |ss| && ss[i] == a;
      assert Rates(ss)[i] == rate;
    }
    if LowRealizationAt(ss, rate).Some? {
      var w := LowRealizationAt(ss, rate).value.worst;
      assert w in Filter(group, (s: Sample) => Corroborated(group, s));
      var peer :| peer in group && peer.index != w.index && Repeatable(w.o.achieved, peer.o.achieved);
    }
  }

  lemma PairIsRepeatable(group: seq<Sample>, a: Sample, b: Sample)
    requires a in group && b in group && a.index != b.index && Repeatable(a.o.achieved, b.o.achieved)
    ensures |group| >= 2 && |Filter(group, (s: Sample) => Corroborated(group, s))| >= 2
  {
    assert Repeatable(b.o.achieved, a.o.achieved);
    TwoMembers(group, a, b);
    TwoMembers(Filter(group, (s: Sample) => Corroborated(group, s)), a, b);
  }

  lemma TwoMembers(s: seq<Sample>, a: Sample, b: Sample)
    requires a in s && b in s && a != b
    ensures |s| >= 2
  {}

  /**
   A rate is reviewable if it was measured, no measurement of it exceeded the loss
   limit, and it has a safe measurement, a reviewable censored one, or a pair of
   low-realization measurements that repeat each other.
   */
  ghost predicate ReviewableRate(ss: seq<Sample>, rate: nat) {
    && Tested(ss, rate)
    && (forall s | s in ss && s.o.candidate == rate :: s.m.resourceSafe)
    && (|| (exists s | s in ss :: s.o.candidate == rate && s.m.safe)
        || (exists s | s in ss :: s.o.candidate == rate && s.o.censored && s.m.manualReviewable)
        || CorroboratedPair(ss, rate))
  }

  lemma PairIsEvidence(ss: seq<Sample>, rate: nat)
    requires CorroboratedPair(ss, rate)
    ensures CorroboratedAt(ss, rate) != []
  {
    var manual := Filter(At(ss, rate), (s: Sample) => s.m.manualReviewable);
    var a, b :| a in ss && b in ss && a.index != b.index && a.o.candidate == rate && b.o.candidate == rate
      && a.m.manualReviewable && b.m.manualReviewable && a.m.delta <= 200.0 && b.m.delta <= 200.0
      && Repeatable(a.o.achieved, b.o.achieved);
    Corroborates(manual, a, b);
  }

  lemma Corroborates(manual: seq<Sample>, a: Sample, b: Sample)
    requires a in manual && b in manual && a.index != b.index && a.m.delta <= 200.0
    requires Repeatable(a.o.achieved, b.o.achieved)
    ensures Filter(manual, (s: Sample) => s.m.delta <= 200.0 && Corroborated(manual, s)) != []
  {
    assert Corroborated(manual, a);
    assert a in Filter(manual, (s: Sample) => s.m.delta <= 200.0 && Corroborated(manual, s));
  }

  lemma GroupsAt(ss: seq<Sample>, rate: nat)
    ensures At(ss, rate) != [] <==> Tested(ss, rate)
    ensures SafeAt(ss, rate) != [] <==> exists s | s in ss :: s.o.candidate == rate && s.m.safe
    ensures CensoredAt(ss, rate) != [] <==>
              exists s | s in ss :: s.o.candidate == rate && s.o.censored && s.m.manualReviewable
  {
    var exact, safe, censored := At(ss, rate), SafeAt(ss, rate), CensoredAt(ss, rate);
    if exact != [] { assert exact[0] in exact; }
    if safe != [] { assert safe[0] in safe; }
    if censored != [] { assert censored[0] in censored; }
  }

  lemma EvidenceIffReviewable(ss: seq<Sample>, rate: nat)
    ensures ReviewableRate(ss, rate) <==> Evidence(ss, rate).Some? && Evidence(ss, rate).value.0 != []
  {
    PairIffLowRealization(ss, rate);
    if CorroboratedPair(ss, rate) { PairIsEvidence(ss, rate); }
    GroupsAt(ss, rate);
    EvidenceFromIff(At(ss, rate), SafeAt(ss, rate), CensoredAt(ss, rate), LowRealizationAt(ss, rate).Some?,
                    CorroboratedAt(ss, rate));
  }

  lemma EvidenceFromIff(exact: seq<Sample>, safe: seq<Sample>, censored: seq<Sample>, low: bool,
                        corroborated: seq<Sample>)
    requires low ==> corroborated != []
    ensures var e := EvidenceFrom(exact, safe, censored, low, corroborated);
            e.Some? && e.value.0 != []
            <==> exact != [] && (forall s | s in exact :: s.m.resourceSafe) && (safe != [] || censored != [] || low)
  {}

  /** A rate has a candidate exactly when it is reviewable. */
  lemma CandidateIffReviewable(b: ReviewBasis, rate: nat)
    ensures CandidateAt(b, rate).Some? <==> ReviewableRate(b.samples, rate)
  {
    EvidenceIffReviewable(b.samples, rate);
  }

  /** There is no candidate exactly when no measured rate is reviewable. */
  lemma NoCandidateIff(b: ReviewBasis)
    ensures Candidates(b) == [] <==> forall rate :: !ReviewableRate(b.samples, rate)
  {
    var cs := Candidates(b);
    forall rate ensures CandidateAt(b, rate).Some? <==> ReviewableRate(b.samples, rate)
                ensures CandidateAt(b, rate).Some? ==> cs != [] {
      CandidateIffReviewable(b, rate);
      if CandidateAt(b, rate).Some? { CandidateListed(b, CandidateAt(b, rate).value); }
    }
    if cs != [] {
      CandidateListed(b, cs[0]);
      assert ReviewableRate(b.samples, cs[0].Rate());
    }
  }
}

/** Theorems about the review set of any terminal result. */
module ReviewTheorems {
  import opened Selection
  import opened SearchHistory
  import opened Review

  ghost predicate DistinctRates(cs: seq<Candidate>) {
    forall i, j | 0 <= i < j < |cs| :: cs[i].Rate() != cs[j].Rate()
  }

  lemma CandidatesAtDistinct(b: ReviewBasis, rates: seq<nat>)
    requires Increasing(rates)
    ensures DistinctRates(CandidatesAt(b, rates))
  {
    if rates != [] {
      var init, last := rates[..|rates| - 1], rates[|rates| - 1];
      CandidatesAtDistinct(b, init);
      var cs := CandidatesAt(b, init);
      forall i | 0 <= i < |cs| ensures cs[i].Rate() < last {
        assert cs[i].Rate() in init;
      }
    }
  }

  lemma FilterDistinct(cs: seq<Candidate>, p: Candidate -> bool)
    requires DistinctRates(cs)
    ensures DistinctRates(Filter(cs, p))
  {
    if cs != [] {
      var init, last := cs[..|cs| - 1], cs[|cs| - 1];
      FilterDistinct(init, p);
      var kept := Filter(init, p);
      forall i | 0 <= i < |kept| ensures kept[i].Rate() != last.Rate() { assert kept[i] in init; }
    }
  }

  lemma InsertDistinct(b: ReviewBasis, s: seq<Candidate>, x: Candidate)
    requires DistinctRates(s)
    requires forall c | c in s :: c.Rate() != x.Rate()
    ensures DistinctRates(InsertByScore(b, s, x))
    ensures forall c :: c in InsertByScore(b, s, x) <==> c in s || c == x
  {
    if s != [] {
      InsertDistinct(b, s[1..], x);
      var t := InsertByScore(b, s[1..], x);
      forall i | 0 <= i < |t| ensures t[i].Rate() != s[0].Rate() { assert t[i] in t; }
    }
  }

  lemma SortDistinct(b: ReviewBasis, s: seq<Candidate>)
    requires DistinctRates(s)
    ensures DistinctRates(SortByScore(b, s))
    ensures forall c :: c in SortByScore(b, s) <==> c in s
  {
    if s != [] {
      SortDistinct(b, s[..|s| - 1]);
      InsertDistinct(b, SortByScore(b, s[..|s| - 1]), s[|s| - 1]);
    }
  }

  // ----- the frontier keeps an undominated member at least as good as any candidate

  ghost function Dominators(cs: seq<Candidate>, c: Candidate): set<Candidate> {
    set d | d in cs && Dominates(d, c)
  }

  lemma FrontierCovers(cs: seq<Candidate>, c: Candidate) returns (f: Candidate)
    requires c in cs && DistinctRates(cs)
    ensures f in Frontier(cs) && f.conservative >= c.conservative && f.Delta() <= c.Delta()
    decreases |Dominators(cs, c)|
  {
    if d :| d in cs && Dominates(d, c) {
      forall e | e in Dominators(cs, d) ensures e in Dominators(cs, c) {
        if e.Rate() == c.Rate() { assert false; }
      }
      SubsetSmaller(Dominators(cs, d), Dominators(cs, c), d);
      f := FrontierCovers(cs, d);
    } else {
      f := c;
    }
  }

  lemma SubsetSmaller<T>(a: set<T>, b: set<T>, x: T)
    requires a <= b && x in b && x !in a
    ensures |a| < |b|
  {
    if a != {} {
      var y :| y in a;
      SubsetSmaller(a - {y}, b - {y}, x);
    }
  }

  lemma BestOfFrontier(frontier: seq<Candidate>, f: Candidate)
    requires f in frontier
    ensures BestDelay(frontier).Some? && BestDelay(frontier).value.Delta() <= f.Delta()
    ensures BestThroughput(frontier).Some? && BestThroughput(frontier).value.conservative >= f.conservative
  {
    MinByIsMin(frontier, (c: Candidate) => Key3(c.Delta(), -(c.conservative as real), -(c.Rate() as real)), f);
    MaxByIsMax(frontier, (c: Candidate) => Key3(c.conservative as real, -c.Delta(), c.Rate() as real), f);
  }

  /** The frontier's best delay and best throughput are the best of all candidates. */
  lemma BestCovers(cs: seq<Candidate>, c: Candidate)
    requires c in cs && DistinctRates(cs)
    ensures Frontier(cs) != []
    ensures BestDelay(Frontier(cs)).value.Delta() <= c.Delta()
    ensures BestThroughput(Frontier(cs)).value.conservative >= c.conservative
  {
    var f := FrontierCovers(cs, c);
    BestOfFrontier(Frontier(cs), f);
  }

  // ----- building the options

  ghost predicate DistinctOptions(options: seq<ReviewOption>) {
    forall i, j | 0 <= i < j < |options| :: options[i].candidate.Rate() != options[j].candidate.Rate()
  }

  lemma OfferFacts(options: seq<ReviewOption>, role: Role, c: Candidate, frontier: seq<Candidate>)
    requires DistinctRates(frontier) && c in frontier
    requires forall o | o in options :: o.candidate in frontier
    requires DistinctOptions(options)
    ensures var t := Offer(options, role, Some(c));
            && options <= t && |t| <= |options| + 1
            && (forall o | o in t :: o.candidate in frontier)
            && (exists o | o in t :: o.candidate == c)
            && DistinctOptions(t)
  {
    var t := Offer(options, role, Some(c));
    if Offered(options, c.Rate()) {
      var o :| o in options && o.candidate.Rate() == c.Rate();
      assert o.candidate == c;
    } else {
      assert t[|options|].candidate == c;
    }
  }

  lemma NamedFacts(r: SearchResult, frontier: seq<Candidate>)
    requires frontier != [] && DistinctRates(frontier)
    ensures var named := Named(r, frontier);
            && 1 <= |named| <= 3
            && Choose(r, frontier).Some?
            && named[0] == ReviewOption(Recommended, Choose(r, frontier).value)
            && (forall o | o in named :: o.candidate in frontier)
            && (exists o | o in named :: o.candidate == BestDelay(frontier).value)
            && (exists o | o in named :: o.candidate == BestThroughput(frontier).value)
            && DistinctOptions(named)
  {
    var one := Offer([], Recommended, Choose(r, frontier));
    assert one == [ReviewOption(Recommended, Choose(r, frontier).value)];
    OfferFacts(one, QualityFirst, BestDelay(frontier).value, frontier);
    var two := Offer(one, QualityFirst, BestDelay(frontier));
    OfferFacts(two, ThroughputFirst, BestThroughput(frontier).value, frontier);
    var o :| o in two && o.candidate == BestDelay(frontier).value;
    assert o in Offer(two, ThroughputFirst, BestThroughput(frontier));
  }

  lemma OptionsFacts(r: SearchResult, frontier: seq<Candidate>)
    requires frontier != [] && DistinctRates(frontier)
    ensures var options := OptionsFrom(r, frontier);
            && Named(r, frontier) <= options
            && |options| <= MAX_OPTIONS
            && (forall o | o in options :: o.candidate in frontier)
            && DistinctOptions(options)
  {
    NamedFacts(r, frontier);
    var named := Named(r, frontier);
    var remaining := Remaining(r.Basis(), frontier, named);
    RemainingFacts(r.Basis(), frontier, named);
    TailFacts(named, remaining, frontier);
    TruncateFacts(named, named + Balanced(remaining), frontier);
  }

  lemma TruncateFacts(named: seq<ReviewOption>, all: seq<ReviewOption>, frontier: seq<Candidate>)
    requires named <= all && |named| <= MAX_OPTIONS
    requires DistinctOptions(all) && forall o | o in all :: o.candidate in frontier
    ensures var options := Truncate(all);
            && named <= options && |options| <= MAX_OPTIONS
            && (forall o | o in options :: o.candidate in frontier)
            && DistinctOptions(options)
  {}

  lemma RemainingFacts(b: ReviewBasis, frontier: seq<Candidate>, named: seq<ReviewOption>)
    requires DistinctRates(frontier)
    ensures DistinctRates(Remaining(b, frontier, named))
    ensures forall c | c in Remaining(b, frontier, named) :: c in frontier && !Offered(named, c.Rate())
  {
    var p := (c: Candidate) => !Offered(named, c.Rate());
    FilterDistinct(frontier, p);
    SortDistinct(b, Filter(frontier, p));
  }

  lemma TailFacts(named: seq<ReviewOption>, remaining: seq<Candidate>, frontier: seq<Candidate>)
    requires DistinctOptions(named) && DistinctRates(remaining)
    requires forall o | o in named :: o.candidate in frontier
    requires forall c | c in remaining :: c in frontier && !Offered(named, c.Rate())
    ensures var all := named + Balanced(remaining);
            DistinctOptions(all) && forall o | o in all :: o.candidate in frontier
  {
    var all := named + Balanced(remaining);
    forall i, j | 0 <= i < j < |all| ensures all[i].candidate.Rate() != all[j].candidate.Rate() {
      if i < |named| <= j {
        assert remaining[j - |named|] in remaining;
        assert named[i] in named;
      }
    }
  }

  /**
   The review set of a terminal result: at most three distinct, exactly measured
   rates; none dominated by any reviewable rate; the lowest worst-case delay and
   the highest conservative throughput of all reviewable rates are both offered.
   */
  lemma ReviewSet(r: SearchResult)
    requires r.Terminal()
    ensures var options := ReviewOptions(r);
            var cs := Candidates(r.Basis());
            && |options| <= MAX_OPTIONS
            && (options == [] <==> cs == [])
            && DistinctOptions(options)
            && (forall o | o in options :: o.candidate in cs && forall d | d in cs :: !Dominates(d, o.candidate))
            && (options != [] ==>
                 && options[0].role == Recommended
                 && (exists o | o in options :: forall d | d in cs :: o.candidate.Delta() <= d.Delta())
                 && (exists o | o in options :: forall d | d in cs :: o.candidate.conservative >= d.conservative))
  {
    var cs := Candidates(r.Basis());
    var frontier := Frontier(cs);
    if cs != [] {
      CandidatesAtDistinct(r.Basis(), SortedDistinct(Rates(r.samples)));
      FilterDistinct(cs, (c: Candidate) => !exists d | d in cs :: Dominates(d, c));
      forall c | c in cs
        ensures frontier != []
        ensures BestDelay(frontier).value.Delta() <= c.Delta()
        ensures BestThroughput(frontier).value.conservative >= c.conservative { BestCovers(cs, c); }
      assert cs[0] in cs;
      NamedFacts(r, frontier);
      OptionsFacts(r, frontier);
      var options := OptionsFrom(r, frontier);
      var quick :| quick in Named(r, frontier) && quick.candidate == BestDelay(frontier).value;
      var wide :| wide in Named(r, frontier) && wide.candidate == BestThroughput(frontier).value;
      assert quick in options && wide in options;
    }
  }

  /** No reviewable rate has a lower delay, or a higher throughput, than this one. */
  ghost predicate Quickest(cs: seq<Candidate>, c: Candidate) { forall d | d in cs :: c.Delta() <= d.Delta() }
  ghost predicate Widest(cs: seq<Candidate>, c: Candidate) { forall d | d in cs :: c.conservative >= d.conservative }

  /**
   What the roles mean: the first option alone is the recommendation, a
   quality-first option has the lowest delay and a throughput-first option the
   highest throughput of all reviewable rates.
   */
  lemma RolesMean(r: SearchResult)
    requires r.Terminal()
    ensures var options, cs := ReviewOptions(r), Candidates(r.Basis());
            forall i | 0 <= i < |options| ::
              && (options[i].role.Recommended? <==> i == 0)
              && (options[i].role.QualityFirst? ==> Quickest(cs, options[i].candidate))
              && (options[i].role.ThroughputFirst? ==> Widest(cs, options[i].candidate))
  {
    var cs := Candidates(r.Basis());
    if Frontier(cs) != [] {
      RolesFit(r, Frontier(cs));
      CandidatesAtDistinct(r.Basis(), SortedDistinct(Rates(r.samples)));
      BestOfAll(cs);
      forall i | 0 <= i < |ReviewOptions(r)|
        ensures RoleFits(i, ReviewOptions(r)[i], BestDelay(Frontier(cs)), BestThroughput(Frontier(cs))) {}
    }
  }

  lemma BestOfAll(cs: seq<Candidate>)
    requires DistinctRates(cs) && Frontier(cs) != []
    ensures Quickest(cs, BestDelay(Frontier(cs)).value) && Widest(cs, BestThroughput(Frontier(cs)).value)
  {
    forall c | c in cs
      ensures BestDelay(Frontier(cs)).value.Delta() <= c.Delta()
      ensures BestThroughput(Frontier(cs)).value.conservative >= c.conservative { BestCovers(cs, c); }
  }

  lemma RolesFit(r: SearchResult, frontier: seq<Candidate>)
    requires frontier != []
    ensures var options := OptionsFrom(r, frontier);
            forall i | 0 <= i < |options| :: RoleFits(i, options[i], BestDelay(frontier), BestThroughput(frontier))
  {
    RolesOfNamed(Choose(r, frontier), BestDelay(frontier), BestThroughput(frontier));
    var named := Named(r, frontier);
    RolesOfAll(named, Remaining(r.Basis(), frontier, named), BestDelay(frontier), BestThroughput(frontier));
  }

  /** The role of an option and the candidate it was offered for. */
  ghost predicate RoleFits(i: nat, o: ReviewOption, quick: Option<Candidate>, wide: Option<Candidate>) {
    && (o.role.Recommended? <==> i == 0)
    && (o.role.QualityFirst? ==> quick == Some(o.candidate))
    && (o.role.ThroughputFirst? ==> wide == Some(o.candidate))
  }

  lemma RolesOfNamed(first: Option<Candidate>, quick: Option<Candidate>, wide: Option<Candidate>)
    requires first.Some?
    ensures var named := Offer(Offer(Offer([], Recommended, first), QualityFirst, quick), ThroughputFirst, wide);
            named != [] && forall i | 0 <= i < |named| :: RoleFits(i, named[i], quick, wide)
  {}

  lemma RolesOfAll(named: seq<ReviewOption>, remaining: seq<Candidate>, quick: Option<Candidate>,
                   wide: Option<Candidate>)
    requires named != [] && forall i | 0 <= i < |named| :: RoleFits(i, named[i], quick, wide)
    ensures var options := Truncate(named + Balanced(remaining));
            forall i | 0 <= i < |options| :: RoleFits(i, options[i], quick, wide)
  {
    var options := Truncate(named + Balanced(remaining));
    forall i | 0 <= i < |options| ensures RoleFits(i, options[i], quick, wide) {
      if i >= |named| { assert options[i] == Balanced(remaining)[i - |named|]; }
    }
  }

  lemma NamedComesFirst(r: SearchResult, frontier: seq<Candidate>)
    requires frontier != [] && DistinctRates(frontier) && Named(r, frontier) != []
    ensures OptionsFrom(r, frontier) != [] && OptionsFrom(r, frontier)[0] == Named(r, frontier)[0]
  {
    OptionsFacts(r, frontier);
  }

  /** The first option is the recommendation, a reviewable rate. */
  lemma RecommendedFirst(r: SearchResult)
    requires r.Terminal() && ReviewOptions(r) != []
    ensures var frontier := Frontier(Candidates(r.Basis()));
            && DistinctRates(frontier) && Choose(r, frontier).Some?
            && ReviewOptions(r)[0] == ReviewOption(Recommended, Choose(r, frontier).value)
            && Choose(r, frontier).value in frontier
            && Choose(r, frontier).value in Candidates(r.Basis())
            && Choose(r, frontier).value.worst in r.samples
  {
    var b := r.Basis();
    var cs := Candidates(b);
    CandidatesAtDistinct(b, SortedDistinct(Rates(r.samples)));
    FilterDistinct(cs, (c: Candidate) => !exists d | d in cs :: Dominates(d, c));
    NamedFacts(r, Frontier(cs));
    NamedComesFirst(r, Frontier(cs));
    CandidateListed(b, Choose(r, Frontier(cs)).value);
  }

  /** Alignment moves the selection to the recommended measurement and is then stable. */
  lemma AlignmentSettles(r: SearchResult)
    requires r.Terminal() && Indexed(r.samples) && ReviewOptions(r) != []
    ensures Align(r).Terminal() && ReviewAligned(Align(r))
    ensures Align(Align(r)) == Align(r)
    ensures ReviewOptions(Align(r)) == ReviewOptions(r)
    ensures Align(r).selected == Some(ReviewOptions(r)[0].candidate.worst.index)
    ensures ReviewOptions(r)[0].candidate in Candidates(r.Basis())
  {
    var frontier := Frontier(Candidates(r.Basis()));
    RecommendedFirst(r);
    Realigned(r, Align(r), frontier, Choose(r, frontier).value);
  }

  /** Selecting a frontier member's measurement makes that member the recommendation. */
  lemma Realigned(r: SearchResult, aligned: SearchResult, frontier: seq<Candidate>, recommended: Candidate)
    requires DistinctRates(frontier) && recommended in frontier
    requires Indexed(r.samples) && recommended.worst in r.samples
    requires Choose(r, frontier) == Some(recommended)
    requires aligned.Basis() == r.Basis() && aligned.selected == Some(recommended.worst.index)
    ensures Choose(aligned, frontier) == Some(recommended)
    ensures OptionsFrom(aligned, frontier) == OptionsFrom(r, frontier)
    ensures recommended.worst.index < |r.samples| && r.samples[recommended.worst.index] == recommended.worst
  {
    assert r.samples[recommended.worst.index] == recommended.worst;
    assert SelectedRate(aligned) == Some(recommended.Rate());
  }

  lemma OptionIsReviewable(r: SearchResult, o: ReviewOption)
    requires r.Terminal() && o in ReviewOptions(r)
    ensures CandidateAt(r.Basis(), o.candidate.Rate()) == Some(o.candidate)
  {
    ReviewSet(r);
    CandidateListed(r.Basis(), o.candidate);
  }

  /** A direction is marked for unattended use only on complete evidence at its exact rate. */
  lemma AutoApplyEvidence(input: Input, r: SearchResult, o: ReviewOption, s: Sample)
    requires Judged(input, r.samples) && r.profile == input.profile && r.observedLow == input.observedLow
    requires r.Terminal() && o in ReviewOptions(r) && o.candidate.AutoApply()
    requires s in r.samples && s.o.candidate == o.candidate.Rate()
    ensures s.o.loss <= input.thresholds.lossMax
    ensures PassesSafety(input.thresholds, s.o) ==>
              && MeetsTarget(input.profile, s.o)
              && s.o.achieved as real * 100.0 >= input.profile.CapacityFloor() * input.observedLow as real
    ensures o.candidate.worst in r.samples && PassesSafety(input.thresholds, o.candidate.worst.o)
  {
    OptionEvidence(r, o, s);
    GroupEvidence(input, r.samples, o.candidate, s);
    JudgedMeaning(input, r.samples, o.candidate.worst);
  }

  /** And it is marked whenever it has that evidence. */
  lemma AutoApplyOnEvidence(input: Input, r: SearchResult, o: ReviewOption)
    requires Judged(input, r.samples) && r.profile == input.profile && r.observedLow == input.observedLow
    requires r.Terminal() && o in ReviewOptions(r)
    requires exists s | s in r.samples :: s.o.candidate == o.candidate.Rate() && PassesSafety(input.thresholds, s.o)
    requires forall s | s in r.samples && s.o.candidate == o.candidate.Rate() && PassesSafety(input.thresholds, s.o) ::
               MeetsTarget(input.profile, s.o)
               && s.o.achieved as real * 100.0 >= input.profile.CapacityFloor() * input.observedLow as real
    ensures o.candidate.AutoApply()
  {
    OptionIsReviewable(r, o);
    ControlledOption(input, r.Basis(), o.candidate);
  }

  lemma ControlledOption(input: Input, b: ReviewBasis, c: Candidate)
    requires Judged(input, b.samples) && b.profile == input.profile && b.observedLow == input.observedLow
    requires CandidateAt(b, c.Rate()) == Some(c)
    requires exists s | s in b.samples :: s.o.candidate == c.Rate() && PassesSafety(input.thresholds, s.o)
    requires forall s | s in b.samples && s.o.candidate == c.Rate() && PassesSafety(input.thresholds, s.o) ::
               MeetsTarget(input.profile, s.o)
               && s.o.achieved as real * 100.0 >= input.profile.CapacityFloor() * input.observedLow as real
    ensures c.AutoApply()
  {
    var safe := SafeAt(b.samples, c.Rate());
    forall s | s in b.samples ensures s.m.safe <==> PassesSafety(input.thresholds, s.o)
                              ensures s.m.targetMet <==> MeetsTarget(input.profile, s.o) {
      JudgedMeaning(input, b.samples, s);
    }
    var s :| s in b.samples && s.o.candidate == c.Rate() && PassesSafety(input.thresholds, s.o);
    assert s in safe;
    var low := MinBy(safe, (s: Sample) => Key1(s.o.achieved as real)).value;
    assert low in safe && c == Summarize(b, safe, true);
    assert c.worst in safe;
  }

  lemma OptionEvidence(r: SearchResult, o: ReviewOption, s: Sample)
    requires r.Terminal() && o in ReviewOptions(r) && o.candidate.AutoApply()
    requires s in r.samples && s.o.candidate == o.candidate.Rate()
    ensures o.candidate.worst in r.samples && o.candidate.worst.m.safe && s.m.resourceSafe
    ensures s.m.safe ==> o.candidate.conservative <= s.o.achieved && s.m.delta <= o.candidate.Delta()
    ensures r.profile.KeepsFloor(o.candidate.conservative, r.observedLow)
  {
    OptionIsReviewable(r, o);
    ControlledGroup(r.Basis(), o.candidate, s);
  }

  lemma GroupEvidence(input: Input, ss: seq<Sample>, c: Candidate, s: Sample)
    requires Judged(input, ss) && s in ss && c.worst in ss
    requires s.m.resourceSafe && c.worst.m.targetMet
    requires input.profile.KeepsFloor(c.conservative, input.observedLow)
    requires s.m.safe ==> c.conservative <= s.o.achieved && s.m.delta <= c.Delta()
    ensures s.o.loss <= input.thresholds.lossMax
    ensures PassesSafety(input.thresholds, s.o) ==>
              && MeetsTarget(input.profile, s.o)
              && s.o.achieved as real * 100.0 >= input.profile.CapacityFloor() * input.observedLow as real
  {
    JudgedMeaning(input, ss, s);
    JudgedMeaning(input, ss, c.worst);
    if s.m.safe {
      RetentionFloor(input.profile, s.o.achieved, c.conservative, input.observedLow);
    }
  }

  /** A controlled candidate speaks for every safe sample at its rate, and no sample there lost packets. */
  lemma ControlledGroup(b: ReviewBasis, c: Candidate, s: Sample)
    requires CandidateAt(b, c.Rate()) == Some(c) && c.controlled
    requires s in b.samples && s.o.candidate == c.Rate()
    ensures s.m.resourceSafe
    ensures s.m.safe ==> c.conservative <= s.o.achieved && s.m.delta <= c.Delta()
    ensures c.capacityMet <==> b.profile.KeepsFloor(c.conservative, b.observedLow)
  {
    assert s in At(b.samples, c.Rate());
    if s.m.safe { SummaryIsWorst(b, SafeAt(b.samples, c.Rate()), true, s); }
  }

  lemma RetentionFloor(profile: Profile, achieved: nat, conservative: nat, observedLow: nat)
    requires conservative <= achieved && profile.KeepsFloor(conservative, observedLow)
    ensures achieved as real * 100.0 >= profile.CapacityFloor() * observedLow as real
  {}
}
