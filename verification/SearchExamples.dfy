/**
 Histories that show what the search does not promise: a terminal result without
 a review option, and a Variable Link rate that is measured a fourth time.
 */
module SearchExamples {
  import opened Selection
  import opened SearchHistory
  import opened Review
  import opened ReviewTheorems
  import opened Search
  import opened SearchTheorems

  const LIMITS := Thresholds(80.0, 110.0, 70.0, 3.0, 90.0)

  /** Everything realized, at the given delay and loss. */
  function Clean(rate: nat, delta: real, loss: real): Observation {
    Observation(rate, rate, rate, delta, delta, false, loss, 10.0)
  }

  // ----- a terminal result has an option exactly when some measured rate is reviewable

  lemma NoOptionIff(input: Input)
    requires Valid(input) && Optimize(input).value.Terminal()
    ensures ReviewOptions(Optimize(input).value) == [] <==> forall rate :: !ReviewableRate(Samples(input), rate)
  {
    VerdictSound(input);
    var r := Optimize(input).value;
    ReviewSet(r);
    NoCandidateIff(r.Basis());
  }

  /** The same rate twice, once clean and once lossy, with no attempt left. */
  function LossyRepeat(): Input {
    Input(BestOverall, 10_000, 1_000, 10_000, LIMITS, 0.0, 2, [Clean(10_000, 10.0, 0.0), Clean(10_000, 10.0, 50.0)])
  }

  lemma LossyRepeatIsValid()
    ensures Valid(LossyRepeat())
    ensures var ss := Samples(LossyRepeat());
            |ss| == 2 && ss[0].m.safe && !ss[1].m.resourceSafe && ss[0].o.candidate == ss[1].o.candidate
  {
    var input := LossyRepeat();
    assert ValidObservation(input, input.observations[0]) && ValidObservation(input, input.observations[1]);
  }

  /** With no attempt left and a safe measurement, the verdict is terminal whatever can be reviewed. */
  lemma SpentWithoutOption(input: Input, s: Sample)
    requires Valid(input) && |input.observations| >= input.maxAttempts
    requires s in Samples(input) && s.m.safe && forall rate :: !ReviewableRate(Samples(input), rate)
    ensures Optimize(input).value.Terminal() && ReviewOptions(Optimize(input).value) == []
  {
    VerdictSound(input);
    NoOptionIff(input);
  }

  /** The clean measurement is retained, but the lossy repeat removes its rate from the review set. */
  lemma LossyRepeatHasNoOption()
    ensures Valid(LossyRepeat())
    ensures Optimize(LossyRepeat()).value.Terminal() && ReviewOptions(Optimize(LossyRepeat()).value) == []
  {
    LossyRepeatIsValid();
    var ss := Samples(LossyRepeat());
    forall rate ensures !ReviewableRate(ss, rate) {
      assert ss[1] in ss;
    }
    SpentWithoutOption(LossyRepeat(), ss[0]);
  }

  // ----- a fourth measurement on Variable Link

  const HIGH: nat := 10_000
  const LOW: nat := 8_500

  /** A good high rate, then one step down: lossy once, and then safe but clearly slower. */
  function RisingDelay(n: nat): Input
    requires n <= 5
  {
    Input(VariableLink, HIGH, 1_000, HIGH, LIMITS, 0.0, 12,
          [Clean(HIGH, 10.0, 0.0), Clean(LOW, 50.0, 50.0), Clean(LOW, 50.0, 0.0), Clean(LOW, 50.0, 0.0),
           Clean(LOW, 50.0, 0.0)][..n])
  }

  /** What the judgement makes of it. */
  ghost predicate RisingHistory(ss: seq<Sample>) {
    forall i | 0 <= i < |ss| ::
      && ss[i].o.candidate == (if i == 0 then HIGH else LOW)
      && ss[i].m.delta == (if i == 0 then 10.0 else 50.0)
      && ss[i].m.reliable && ss[i].m.resourceSafe == (i != 1) && ss[i].m.safe == (i != 1)
  }

  lemma RisingIsValid(n: nat)
    requires 1 <= n <= 5
    ensures Valid(RisingDelay(n)) && |Samples(RisingDelay(n))| == n && RisingHistory(Samples(RisingDelay(n)))
  {
    var input := RisingDelay(n);
    forall i | 0 <= i < n ensures ValidObservation(input, input.observations[i]) {}
  }

  lemma SortedPair(s: seq<nat>, a: nat, b: nat)
    requires Increasing(s) && a < b && forall x :: x in s <==> x == a || x == b
    ensures s == [a, b]
  {
    assert a in s && b in s;
    var i :| 0 <= i < |s| && s[i] == a;
    var j :| 0 <= j < |s| && s[j] == b;
    assert |s| > 2 ==> s[0] < s[1] && s[1] < s[2];
    forall k | 0 <= k < |s| ensures s[k] == a || s[k] == b { assert s[k] in s; }
  }

  lemma SortedSingle(s: seq<nat>, a: nat)
    requires Increasing(s) && forall x :: x in s <==> x == a
    ensures s == [a]
  {
    assert a in s;
    assert |s| > 1 ==> s[0] < s[1];
    forall k | 0 <= k < |s| ensures s[k] == a { assert s[k] in s; }
  }

  ghost predicate Constant(s: seq<real>, d: real) { forall i | 0 <= i < |s| :: s[i] == d }

  lemma {:induction false} InsertConstant(s: seq<real>, d: real)
    requires Constant(s, d)
    ensures Constant(InsertReal(s, d), d)
  {
    if s != [] {
      InsertConstant(s[1..], d);
    }
  }

  lemma {:induction false} SortConstant(s: seq<real>, d: real)
    requires Constant(s, d)
    ensures Constant(SortReals(s), d)
  {
    if s != [] {
      SortConstant(s[..|s| - 1], d);
      InsertConstant(SortReals(s[..|s| - 1]), d);
    }
  }

  lemma MedianOfConstant(sorted: seq<real>, d: real)
    requires sorted != [] && Constant(sorted, d)
    ensures Percentile(sorted, 0.5) == d
  {}

  /** Safe measurements of one delay have it as their median and no spread. */
  lemma ConstantAggregate(ss: seq<Sample>, rate: nat, d: real)
    requires SafeAt(ss, rate) != [] && forall s | s in SafeAt(ss, rate) :: s.m.delta == d
    ensures var a := AggregateAt(ss, rate).value; a.median == d && a.spread == 0.0 && a.repeats == |SafeAt(ss, rate)|
  {
    var safe := SafeAt(ss, rate);
    var deltas := Deltas(safe);
    forall i | 0 <= i < |deltas| ensures deltas[i] == d { assert safe[i] in safe; }
    SortConstant(deltas, d);
    MedianOfConstant(SortReals(deltas), d);
  }

  lemma AggregatesOfOne(ss: seq<Sample>, a: nat)
    requires SafeAt(ss, a) != []
    ensures Aggregates(ss, [a]) == [AggregateAt(ss, a).value]
  {
    assert [a][..0] == [] && Aggregates(ss, []) == [];
    assert [AggregateAt(ss, a).value] + [] == [AggregateAt(ss, a).value];
  }

  lemma AggregatesOfPair(ss: seq<Sample>, a: nat, b: nat)
    requires SafeAt(ss, a) != [] && SafeAt(ss, b) != []
    ensures Aggregates(ss, [a, b]) == [AggregateAt(ss, b).value, AggregateAt(ss, a).value]
  {
    assert [a, b][..1] == [a];
    AggregatesOfOne(ss, a);
  }

  lemma RatesOfRising(ss: seq<Sample>)
    requires RisingHistory(ss) && |ss| >= 2
    ensures SortedDistinct(Rates(ss)) == [LOW, HIGH]
  {
    var rates := Rates(ss);
    assert rates[0] == HIGH && rates[1] == LOW;
    SortedPair(SortedDistinct(rates), LOW, HIGH);
  }

  /** Delay 10 ms at the high rate, 50 ms at the low one, with every safe repeat alike. */
  lemma CurveOfRising(ss: seq<Sample>)
    requires RisingHistory(ss) && |ss| >= 3
    ensures var aggregates := Aggregates(ss, SortedDistinct(Rates(ss)));
            && |aggregates| == 2 && aggregates[0].median == 10.0 && aggregates[1].median == 50.0
            && aggregates[0].spread == 0.0 && aggregates[1].spread == 0.0
            && aggregates[1].rate == LOW && aggregates[1].repeats == |SafeAt(ss, LOW)|
  {
    RatesOfRising(ss);
    assert ss[0] in SafeAt(ss, HIGH) && ss[2] in SafeAt(ss, LOW);
    ConstantAggregate(ss, HIGH, 10.0);
    ConstantAggregate(ss, LOW, 50.0);
    AggregatesOfPair(ss, LOW, HIGH);
  }

  lemma {:induction false} CountsOfRising(ss: seq<Sample>)
    requires RisingHistory(ss)
    ensures Count(ss, LOW) == if |ss| == 0 then 0 else |ss| - 1
    ensures |SafeAt(ss, LOW)| == if |ss| <= 2 then 0 else |ss| - 2
  {
    if ss != [] {
      CountsOfRising(ss[..|ss| - 1]);
    }
  }

  /** A rise in delay on the way down asks for the low rate again while it has fewer than three safe measurements. */
  lemma RisingRepeats(input: Input, ss: seq<Sample>)
    requires Ready(input, ss) && RisingHistory(ss) && 3 <= |ss| <= 4 && |ss| < input.maxAttempts
        && input.uncertainty == 0.0
    ensures var d := DecideVariable(input, ss);
            d.action.Test? && d.reason == RepeatNonmonotonicVariable && d.next == Some(LOW)
  {
    CurveOfRising(ss);
    CountsOfRising(ss);
    var aggregates := Aggregates(ss, SortedDistinct(Rates(ss)));
    assert Rises(aggregates, 0.0);
    assert !NoisyLast(Last(ss).o.candidate, aggregates) by {
      assert forall a | a in aggregates :: a == aggregates[0] || a == aggregates[1];
    }
  }

  lemma AskIsDecision(input: Input)
    requires Valid(input) && input.profile.VariableLink? && Ready(input, Samples(input))
    requires DecideVariable(input, Samples(input)).action.Test?
    ensures Ask(input) == DecideVariable(input, Samples(input)).next
    ensures Optimize(input).value.reason == DecideVariable(input, Samples(input)).reason
  {
    SamplesReady(input);
    var ss := Samples(input);
    JudgedCoherent(input, ss);
    DecisionSound(input, ss);
    ConcludeSound(input, ss, DecisionFor(input, ss));
  }

  /** After one lossy and two safe measurements the search asks for the low rate a fourth time. */
  lemma FourthMeasurementIsAsked()
    ensures Valid(RisingDelay(4)) && Count(Samples(RisingDelay(4)), LOW) == 3
    ensures Ask(RisingDelay(4)) == Some(LOW)
  {
    RisingIsValid(4);
    var input := RisingDelay(4);
    SamplesReady(input);
    CountsOfRising(Samples(input));
    RisingRepeats(input, Samples(input));
    AskIsDecision(input);
  }

  lemma StepOfRising()
    ensures FixedStep(HIGH, 1_000, HIGH) == Some(LOW)
  {
    assert Ceil(15.0) == 15;
  }

  /** One clean measurement: descend one step. */
  lemma RisingDescends(input: Input, ss: seq<Sample>)
    requires Ready(input, ss) && RisingHistory(ss) && |ss| == 1 && input.maxAttempts == 12
    requires input.observedLow == HIGH && input.minimum == 1_000
    ensures var d := DecideVariable(input, ss); d.action.Test? && d.next == Some(LOW)
  {
    var rates := SortedDistinct(Rates(ss));
    assert Rates(ss)[0] == HIGH;
    SortedSingle(rates, HIGH);
    assert ss[0] in SafeAt(ss, HIGH);
    ConstantAggregate(ss, HIGH, 10.0);
    AggregatesOfOne(ss, HIGH);
    var aggregates := Aggregates(ss, rates);
    StepOfRising();
    assert !NoisyLast(Last(ss).o.candidate, aggregates);
    assert !Tested(ss, LOW);
  }

  /** A lossy measurement is repeated. */
  lemma RisingRetries(input: Input, ss: seq<Sample>)
    requires Ready(input, ss) && RisingHistory(ss) && |ss| == 2 && input.maxAttempts == 12
    ensures var d := DecideVariable(input, ss); d.action.Test? && d.next == Some(LOW)
  {
    CountsOfRising(ss);
  }

  lemma RisingAsks(n: nat)
    requires 1 <= n <= 4
    ensures Valid(RisingDelay(n)) && Ask(RisingDelay(n)) == Some(LOW)
  {
    RisingIsValid(n);
    var input := RisingDelay(n);
    SamplesReady(input);
    var ss := Samples(input);
    if n == 1 {
      RisingDescends(input, ss);
    } else if n == 2 {
      RisingRetries(input, ss);
    } else {
      RisingRepeats(input, ss);
    }
    AskIsDecision(input);
  }

  lemma RisingPrefix(k: nat)
    requires 1 <= k < 5
    ensures RisingDelay(k) == Prefix(RisingDelay(5), k)
    ensures Measured(RisingDelay(5).observations[k]) && RisingDelay(5).observations[k].candidate == LOW
  {
    assert RisingDelay(5).observations[..k] == RisingDelay(k).observations;
  }

  lemma RisingTurn(k: nat)
    requires 1 <= k < 5
    ensures Answered(Ask, RisingDelay(5), k)
  {
    RisingPrefix(k);
    RisingAsks(k);
    AnsweredAt(Ask, RisingDelay(5), k, RisingDelay(k));
  }

  lemma AnsweredAt(ask: Input -> Option<nat>, input: Input, k: nat, before: Input)
    requires k < |input.observations| && before == Prefix(input, k)
    requires ask(before) == Some(input.observations[k].candidate) && Measured(input.observations[k])
    ensures Answered(ask, input, k)
  {}

  /** A whole run of the search in which every request was answered and one rate was measured four times. */
  lemma FourMeasurementsInOneRun()
    ensures Valid(RisingDelay(5)) && ClosedLoop(Ask, RisingDelay(5)) && Count(Samples(RisingDelay(5)), LOW) == 4
  {
    RisingIsValid(5);
    CountsOfRising(Samples(RisingDelay(5)));
    forall k | 1 <= k < 5 ensures Answered(Ask, RisingDelay(5), k) { RisingTurn(k); }
  }
}
