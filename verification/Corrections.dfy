/**
  * Corrections of a shaped candidate after validation: a bounded decrease or
  * increase that keeps the measured realization above the retention floor.
  */
module Corrections {
  import opened Selection
  import opened SearchHistory

  datatype Direction = Direction(observedLow: nat, candidate: nat, realized: nat, achieved: nat, minimum: nat,
                                 maximum: nat)

  predicate ValidDirection(d: Direction) {
    && 0 < d.observedLow <= MAX_RATE && 0 < d.candidate && 0 < d.realized <= MAX_RATE && 0 < d.achieved <= MAX_RATE
    && 0 < d.minimum <= d.candidate <= d.maximum <= MAX_RATE
  }

  /** Which of the direction's gates passed; `quiet` is all of its latency and loss gates. */
  datatype Gates = Gates(realizationMin: bool, realizationMax: bool, quiet: bool, retention: bool)

  datatype Action = Hold | RetryMeasurement | Infeasible | Decrease | Increase

  datatype Correction = Correction(action: Action, proposed: nat, requiredFloor: nat)

  /** Nearest hundred, at least 100 and at most the global bound. */
  function RoundedRate(rate: real): (r: nat)
    ensures 100 <= r <= MAX_RATE
  {
    var rounded := Round(MaxReal(rate, 100.0) / 100.0) * 100;
    if rounded > MAX_RATE then MAX_RATE else rounded
  }

  lemma RoundedRateIsNear(rate: real)
    ensures RoundedRate(rate) % 100 == 0
    ensures 100.0 <= rate <= MAX_RATE as real ==> rate - 50.0 <= RoundedRate(rate) as real <= rate + 50.0
  {}

  /** The fraction of the shaped rate that was realized. */
  function Realization(d: Direction): (r: real)
    requires ValidDirection(d)
    ensures r > 0.0
  {
    (d.realized as real * 100.0 / d.candidate as real) / 100.0
  }

  /** The rate whose realization would just keep the floor. */
  function FloorRate(d: Direction, floorPercent: real): real
    requires ValidDirection(d)
  {
    d.observedLow as real * (floorPercent / 100.0) / Realization(d)
  }

  function RequiredFloor(d: Direction, floorPercent: real): nat
    requires ValidDirection(d)
  {
    RoundedRateUp(FloorRate(d, floorPercent))
  }

  function InfeasibleAt(d: Direction, required: nat): Correction { Correction(Infeasible, d.candidate, required) }

  /** Five percent down, but not below the required floor. */
  function DecreaseTo(d: Direction, required: nat): Correction {
    if required >= d.candidate then InfeasibleAt(d, required)
    else
      var desired := MaxNat(MaxNat(RoundedRate(d.candidate as real * 0.95), d.minimum), required);
      if desired >= d.candidate then InfeasibleAt(d, required) else Correction(Decrease, desired, required)
  }

  /** Five percent up or to the required floor, within observed-low, the maximum and one 20% step. */
  function IncreaseTo(d: Direction, required: nat): Correction { IncreaseWithin(d, required, StepsOf(d)) }

  /** The rounded observed-low, and the candidate five and twenty percent up. */
  datatype Steps = Steps(low: nat, up: nat, bound: nat)

  function StepsOf(d: Direction): Steps {
    Steps(RoundedRate(d.observedLow as real), RoundedRate(d.candidate as real * 1.05),
          RoundedRate(d.candidate as real * 1.20))
  }

  function IncreaseWithin(d: Direction, required: nat, steps: Steps): Correction {
    var upper := MaxNat(MinNat(MinNat(steps.low, d.maximum), steps.bound), d.minimum);
    if required > upper then InfeasibleAt(d, required)
    else
      var desired := MinNat(MaxNat(steps.up, required), upper);
      if desired <= d.candidate then InfeasibleAt(d, required) else Correction(Increase, desired, required)
  }

  function Corrected(d: Direction, floorPercent: real, gates: Gates): Correction
    requires ValidDirection(d)
  {
    var required := RequiredFloor(d, floorPercent);
    if !gates.realizationMin || !gates.realizationMax then Correction(RetryMeasurement, d.candidate, required)
    else if !gates.quiet then DecreaseTo(d, MaxNat(required, d.minimum))
    else if !gates.retention then IncreaseTo(d, MaxNat(required, d.minimum))
    else Correction(Hold, d.candidate, required)
  }

  /** The proposal, realized as the candidate was, still keeps the floor of observed-low. */
  predicate KeepsFloor(d: Direction, floorPercent: real, proposed: nat)
    requires ValidDirection(d)
  {
    proposed as real * d.realized as real / d.candidate as real >= d.observedLow as real * (floorPercent / 100.0)
  }

  lemma QuotientBound(proposed: real, amount: real, ratio: real)
    requires ratio > 0.0
    ensures proposed >= amount / ratio <==> proposed * ratio >= amount
  {
    var quotient := amount / ratio;
    assert quotient * ratio == amount;
    if proposed >= quotient {
      assert (proposed - quotient) * ratio >= 0.0;
    } else {
      assert (quotient - proposed) * ratio > 0.0;
    }
  }

  lemma RealizationIsRatio(d: Direction, proposed: real)
    requires ValidDirection(d)
    ensures proposed * Realization(d) == proposed * d.realized as real / d.candidate as real
  {}

  /** The floor rate is the exact threshold of keeping the floor. */
  lemma FloorRateIsThreshold(d: Direction, floorPercent: real, proposed: nat)
    requires ValidDirection(d)
    ensures KeepsFloor(d, floorPercent, proposed) <==> proposed as real >= FloorRate(d, floorPercent)
  {
    RealizationIsRatio(d, proposed as real);
    QuotientBound(proposed as real, d.observedLow as real * (floorPercent / 100.0), Realization(d));
  }

  /** Bounds and direction of a proposed move, whatever floor is required. */
  lemma MoveBounds(d: Direction, required: nat)
    requires ValidDirection(d) && required >= d.minimum
    ensures var down := DecreaseTo(d, required);
            down.action.Decrease? ==> required <= down.proposed < d.candidate && d.minimum <= down.proposed <= d.maximum
    ensures var up := IncreaseTo(d, required);
            up.action.Increase? ==>
              && d.candidate < up.proposed && required <= up.proposed && d.minimum <= up.proposed <= d.maximum
              && up.proposed <= RoundedRate(d.candidate as real * 1.20)
              && up.proposed <= RoundedRate(d.observedLow as real)
  {}

  /**
    * Every Decrease or Increase moves strictly the named way within the limits,
    * and keeps the retention floor exactly when the floor rate is representable.
    */
  lemma CorrectionSound(d: Direction, floorPercent: real, gates: Gates)
    requires ValidDirection(d)
    requires Corrected(d, floorPercent, gates).action in {Decrease, Increase}
    ensures var c := Corrected(d, floorPercent, gates);
            && d.minimum <= c.proposed <= d.maximum
            && (c.action.Decrease? ==> c.proposed < d.candidate)
            && (c.action.Increase? ==> && c.proposed > d.candidate
                                       && c.proposed <= RoundedRate(d.candidate as real * 1.20)
                                       && c.proposed <= RoundedRate(d.observedLow as real))
            && (KeepsFloor(d, floorPercent, c.proposed) <==> FloorRate(d, floorPercent) <= MAX_RATE as real)
            && (c.requiredFloor < MAX_RATE ==> KeepsFloor(d, floorPercent, c.proposed))
  {
    var c := Corrected(d, floorPercent, gates);
    MoveBounds(d, MaxNat(RequiredFloor(d, floorPercent), d.minimum));
    FloorRateIsThreshold(d, floorPercent, c.proposed);
  }

  // -------------------------------------------------------------------------
  // Which correction is made, from the gates and the permitted rates alone.

  /** A lower rate: within one 5% step, and not below the minimum or the required floor. */
  predicate PermittedDown(d: Direction, required: nat, p: nat) {
    RoundedRate(d.candidate as real * 0.95) <= p < d.candidate && d.minimum <= p && required <= p
  }

  /** A higher rate: at the required floor, within every bound, and beyond one 5% step only up to that floor. */
  predicate PermittedUp(d: Direction, required: nat, steps: Steps, p: nat) {
    && d.candidate < p <= d.maximum && required <= p <= steps.low && p <= steps.bound
    && p <= MaxNat(steps.up, required)
  }

  /** The steps are the named shares up to half a hundred. */
  lemma StepsAreNear(d: Direction)
    requires ValidDirection(d) && d.observedLow >= 100 && d.candidate >= 100
    requires d.candidate as real * 1.20 <= MAX_RATE as real
    ensures var steps := StepsOf(d);
            && d.observedLow as real - 50.0 <= steps.low as real <= d.observedLow as real + 50.0
            && d.candidate as real * 1.05 - 50.0 <= steps.up as real <= d.candidate as real * 1.05 + 50.0
            && d.candidate as real * 1.20 - 50.0 <= steps.bound as real <= d.candidate as real * 1.20 + 50.0
  {
    RoundedRateIsNear(d.observedLow as real);
    RoundedRateIsNear(d.candidate as real * 1.05);
    RoundedRateIsNear(d.candidate as real * 1.20);
  }

  lemma DecreaseExact(d: Direction, required: nat)
    requires ValidDirection(d)
    ensures var c := DecreaseTo(d, MaxNat(required, d.minimum));
            if exists p: nat :: PermittedDown(d, required, p)
            then && c.action.Decrease? && PermittedDown(d, required, c.proposed)
                 && forall p: nat :: PermittedDown(d, required, p) ==> c.proposed <= p
            else c.action.Infeasible? && c.proposed == d.candidate
  {
    var c := DecreaseTo(d, MaxNat(required, d.minimum));
    if c.action.Decrease? { assert PermittedDown(d, required, c.proposed); }
  }

  lemma IncreaseExact(d: Direction, required: nat, steps: Steps)
    requires ValidDirection(d)
    ensures var c := IncreaseWithin(d, MaxNat(required, d.minimum), steps);
            if exists p: nat :: PermittedUp(d, required, steps, p)
            then && c.action.Increase? && PermittedUp(d, required, steps, c.proposed)
                 && forall p: nat :: PermittedUp(d, required, steps, p) ==> p <= c.proposed
            else c.action.Infeasible? && c.proposed == d.candidate
  {
    var c := IncreaseWithin(d, MaxNat(required, d.minimum), steps);
    if c.action.Increase? { assert PermittedUp(d, required, steps, c.proposed); }
  }

  /**
    * The correction, exactly. A failed realization gate asks for a new measurement;
    * else a failed latency or loss gate takes the lowest permitted lower rate; else a
    * failed retention gate takes the highest permitted higher rate; each is
    * infeasible exactly when no rate is permitted; and all gates passing is a hold.
    */
  lemma CorrectionExact(d: Direction, floorPercent: real, gates: Gates)
    requires ValidDirection(d)
    ensures var c, required := Corrected(d, floorPercent, gates), RequiredFloor(d, floorPercent);
            var measured := gates.realizationMin && gates.realizationMax;
            && (c.action.RetryMeasurement? <==> !measured)
            && (c.action.Hold? <==> measured && gates.quiet && gates.retention)
            && (c.action.Decrease? <==> measured && !gates.quiet && exists p: nat :: PermittedDown(d, required, p))
            && (c.action.Increase? <==>
                  && measured && gates.quiet && !gates.retention
                  && exists p: nat :: PermittedUp(d, required, StepsOf(d), p))
            && (c.action.Decrease? ==>
                  && PermittedDown(d, required, c.proposed)
                  && forall p: nat :: PermittedDown(d, required, p) ==> c.proposed <= p)
            && (c.action.Increase? ==>
                  && PermittedUp(d, required, StepsOf(d), c.proposed)
                  && forall p: nat :: PermittedUp(d, required, StepsOf(d), p) ==> p <= c.proposed)
            && (!c.action.Decrease? && !c.action.Increase? ==> c.proposed == d.candidate)
  {
    DecreaseExact(d, RequiredFloor(d, floorPercent));
    IncreaseExact(d, RequiredFloor(d, floorPercent), StepsOf(d));
  }

  /** Near the global bound the required floor saturates, and an increase can then miss it. */
  lemma SaturatedFloorCanBeMissed()
    ensures var d := Direction(100_000_000, 90_000_000, 70_000_000, 70_000_000, 100, 100_000_000);
            var c := Corrected(d, 90.0, Gates(true, true, true, false));
            ValidDirection(d) && c.action.Increase? && c.requiredFloor == MAX_RATE && !KeepsFloor(d, 90.0, c.proposed)
  {
    var d := Direction(100_000_000, 90_000_000, 70_000_000, 70_000_000, 100, 100_000_000);
    FloorRateIsThreshold(d, 90.0, 100_000_000);
    assert FloorRate(d, 90.0) > 100_000_000.0;
    assert RequiredFloor(d, 90.0) == MAX_RATE;
    assert RoundedRate(100_000_000.0) == MAX_RATE && RoundedRate(90_000_000.0 * 1.20) == MAX_RATE;
    assert IncreaseTo(d, MAX_RATE) == Correction(Increase, MAX_RATE, MAX_RATE);
  }
}
