/**
  * The adaptive ceiling of one direction: it qualifies, probes a higher bound,
  * and promotes it or bisects below the bound that failed. Rates are real
  * numbers in kbit/s, times natural numbers.
  */
module AdaptiveCeiling {
  import opened Selection

  /** `f64::EPSILON`. */
  const EPSILON: real := 1.0 / 4503599627370496.0

  datatype Phase = Cruise | Qualify | ProbeRamp | ProbeObserve | Backoff

  datatype Policy = Policy(holdTime: nat, probeStepPercent: real, probeDuration: nat, cooldown: nat,
                           failedBoundTtl: nat, eligibilityGrace: nat, minimumGainPercent: real)

  datatype Observation = Observation(eligible: bool, bufferbloat: bool, shaperRate: real, achievedRate: real)

  datatype Change = Raised(from: real, to: real) | Lowered(from: real, to: real)

  /** `failed` is the failed bound and when it was recorded. */
  datatype State = State(
    cap: real, initialSafe: real, safe: real, effective: real,
    failed: Option<(real, nat)>,
    target: Option<real>, baseline: Option<real>, peak: real,
    phase: Phase, since: nat, lastEligible: Option<nat>)

  function Elapsed(now: nat, since: nat): nat { if now < since then 0 else now - since }

  function RateChange(from: real, to: real): Option<Change> {
    if to > from + EPSILON then Some(Raised(from, to))
    else if to + EPSILON < from then Some(Lowered(from, to))
    else None
  }

  function RampTimeout(policy: Policy): nat { MaxNat(MaxNat(policy.holdTime, 3 * policy.probeDuration), 15_000) }

  predicate EligibilityExpired(s: State, now: nat, grace: nat) {
    s.lastEligible.None? || Elapsed(now, s.lastEligible.value) > grace
  }

  predicate AtCeiling(s: State, shaperRate: real) { shaperRate >= s.effective * 0.98 }

  function StepUp(safe: real, step: real): real { safe * (1.0 + step / 100.0) }

  /** Where the next probe aims before the cap and rounding: one step up, at most half way to the failed bound. */
  function Halfway(safe: real, failed: Option<real>, open: real): real {
    if failed.Some? then MinReal(open, safe + (failed.value - safe) / 2.0) else open
  }

  function RoundedTarget(bounded: real, safe: real, cap: real): real {
    (Round(MinReal(MaxReal(bounded, safe + 1.0), cap))) as real
  }

  function FailedBound(s: State): Option<real> { if s.failed.Some? then Some(s.failed.value.0) else None }

  predicate TooClose(safe: real, failed: real) { failed <= safe + MaxReal(safe * 0.005, 1000.0) }

  function NextProbeTarget(s: State, step: real): Option<real> { NextTarget(s, StepUp(s.safe, step)) }

  function NextTarget(s: State, open: real): Option<real> {
    if s.safe >= s.cap then None
    else if s.failed.Some? && TooClose(s.safe, s.failed.value.0) then None
    else
      var target := RoundedTarget(Halfway(s.safe, FailedBound(s), open), s.safe, s.cap);
      if target > s.safe + EPSILON then Some(target) else None
  }

  // -------------------------------------------------------------------------
  // The step of each operation, on values.

  function Enter(s: State, now: nat, phase: Phase): State { s.(phase := phase, since := now) }

  /** The probe's own fields cleared and the ceiling back at the safe rate. */
  function Closed(s: State): State {
    s.(target := None, baseline := None, peak := 0.0, effective := s.safe, lastEligible := None)
  }

  function Aborted(s: State, now: nat): State { Enter(Closed(s), now, Backoff) }

  function Expired(s: State, now: nat, ttl: nat): State {
    if s.failed.Some? && Elapsed(now, s.failed.value.1) >= ttl then s.(failed := None) else s
  }

  function Recorded(s: State, failed: real, now: nat): State {
    s.(failed := Some((if s.failed.Some? then MinReal(s.failed.value.0, failed) else failed, now)))
  }

  function Bloated(s: State, now: nat, shaperRate: real): State {
    if s.phase.Backoff? then s
    else
      var failed := MaxReal(if s.target.Some? then s.target.value else s.effective, s.initialSafe);
      var marked :=
        if failed > s.safe then Recorded(s, failed, now)
        else if s.safe > s.initialSafe && shaperRate < s.safe then
          Recorded(s, s.safe, now).(safe := MaxReal(shaperRate, s.initialSafe))
        else s;
      Enter(Closed(marked), now, Backoff)
  }

  function NotNegative(rate: real): real { MaxReal(rate, 0.0) }

  /** The throughput a probe must add over its baseline. */
  function RequiredGain(baseline: real, target: real, safe: real, percent: real): real {
    MinReal(MaxReal(baseline * MaxReal(percent, 0.0) / 100.0, 50.0), MaxReal(NotNegative(target - safe) * 0.5, 1.0))
  }

  predicate GainShown(s: State, policy: Policy) {
    var baseline := if s.baseline.Some? then s.baseline.value else 0.0;
    var target := if s.target.Some? then s.target.value else s.safe;
    baseline > 0.0 ==> s.peak + EPSILON >= baseline + RequiredGain(baseline, target, s.safe, policy.minimumGainPercent)
  }

  function Peaked(s: State, o: Observation): State {
    if o.eligible then s.(peak := MaxReal(s.peak, NotNegative(o.achievedRate))) else s
  }

  function Cruising(s: State, now: nat, o: Observation, policy: Policy): State {
    if o.eligible && AtCeiling(s, o.shaperRate) && NextProbeTarget(s, policy.probeStepPercent).Some? then
      Enter(s.(baseline := Some(NotNegative(o.achievedRate)), peak := 0.0), now, Qualify)
    else s
  }

  function Qualifying(s: State, now: nat, o: Observation, policy: Policy): State {
    var seen :=
      if o.eligible then
        s.(baseline := Some(MaxReal(if s.baseline.Some? then s.baseline.value else 0.0, NotNegative(o.achievedRate))))
      else s;
    if EligibilityExpired(s, now, policy.eligibilityGrace) then
      Enter(seen.(baseline := None, peak := 0.0), now, Cruise)
    else if Elapsed(now, s.since) >= policy.holdTime && o.eligible && AtCeiling(s, o.shaperRate) then
      var target := NextProbeTarget(s, policy.probeStepPercent);
      if target.Some? then Enter(seen.(target := target, effective := target.value), now, ProbeRamp)
      else Enter(seen.(baseline := None, peak := 0.0), now, Cruise)
    else seen
  }

  function Ramping(s: State, now: nat, o: Observation, policy: Policy): State {
    var target := if s.target.Some? then s.target.value else s.safe;
    if EligibilityExpired(s, now, policy.eligibilityGrace) then Aborted(s, now)
    else if o.eligible && o.shaperRate >= target * 0.98 then Enter(Peaked(s, o), now, ProbeObserve)
    else if Elapsed(now, s.since) >= RampTimeout(policy) then Aborted(Peaked(s, o), now)
    else Peaked(s, o)
  }

  function Watching(s: State, now: nat, o: Observation, policy: Policy): State {
    if EligibilityExpired(s, now, policy.eligibilityGrace) then Aborted(s, now)
    else
      var seen := Peaked(s, o);
      if o.eligible && Elapsed(now, s.since) >= policy.probeDuration then
        if GainShown(seen, policy) then
          var target := if s.target.Some? then s.target.value else s.safe;
          Enter(seen.(safe := target, effective := target, target := None, baseline := None, peak := 0.0), now, Backoff)
        else Aborted(seen, now)
      else seen
  }

  function CoolingDown(s: State, now: nat, policy: Policy): State {
    if Elapsed(now, s.since) >= policy.cooldown then Enter(s, now, Cruise) else s
  }

  /** Expiry of the failed bound and the eligibility stamp come before everything else. */
  function Stamped(s: State, now: nat, o: Observation, policy: Policy): State {
    var e := Expired(s, now, policy.failedBoundTtl);
    if o.eligible then e.(lastEligible := Some(now)) else e
  }

  function Observed(s: State, now: nat, o: Observation, policy: Policy): State {
    var e := Stamped(s, now, o, policy);
    if o.bufferbloat then Bloated(e, now, o.shaperRate)
    else
      match e.phase
      case Cruise => Cruising(e, now, o, policy)
      case Qualify => Qualifying(e, now, o, policy)
      case ProbeRamp => Ramping(e, now, o, policy)
      case ProbeObserve => Watching(e, now, o, policy)
      case Backoff => CoolingDown(e, now, policy)
  }

  function Paused(s: State, now: nat): State { Enter(Closed(s), now, Cruise) }

  predicate Probing(phase: Phase) { phase.ProbeRamp? || phase.ProbeObserve? }
  predicate Active(phase: Phase) { phase.Qualify? || Probing(phase) }

  function Gapped(s: State, now: nat): State { if Active(s.phase) then Aborted(s, now) else s }

  function Reset(s: State, now: nat): State {
    Enter(Closed(s.(safe := s.initialSafe, failed := None)), now, Cruise)
  }

  function Initial(configured: real, cap: real, verified: real, now: nat): State {
    var top := MaxReal(cap, configured);
    var safe := MinReal(MinReal(MaxReal(verified, 1.0), MaxReal(configured, 1.0)), top);
    State(top, safe, safe, safe, None, None, None, 0.0, Cruise, now, None)
  }

  // -------------------------------------------------------------------------
  // The invariant of every reachable state.

  /** How high a ceiling can get: a target is rounded after the cap is applied. */
  function Reach(cap: real): real { MaxReal(cap, Round(cap) as real) }

  predicate Inv(s: State) {
    && 1.0 <= s.initialSafe <= s.safe <= s.effective <= Reach(s.cap) && s.initialSafe <= s.cap
    && (s.target.Some? <==> Probing(s.phase))
    && (s.target.Some? ==> s.effective == s.target.value && s.target.value > s.safe)
    && (s.target.None? ==> s.effective == s.safe)
    && (s.failed.Some? ==>
          var failed := s.failed.value.0;
          && s.safe < failed <= Reach(s.cap)
          && (s.target.Some? ==>
                && !TooClose(s.safe, failed)
                && s.safe + 0.5 <= s.target.value <= s.safe + (failed - s.safe) / 2.0 + 0.5 < failed))
  }

  lemma InitialInv(configured: real, cap: real, verified: real, now: nat)
    requires configured >= 1.0
    ensures Inv(Initial(configured, cap, verified, now))
  {}

  /** The first safe ceiling is the lowest of the verified rate, the configured maximum and the cap, or 1 kbit/s. */
  lemma InitialIsVerified(configured: real, cap: real, verified: real, now: nat)
    requires configured >= 1.0
    ensures var s := Initial(configured, cap, verified, now);
            && s.safe <= MaxReal(verified, 1.0) && s.safe <= configured <= s.cap && cap <= s.cap
            && (s.safe == verified || s.safe == 1.0 || s.safe == configured)
            && (1.0 <= verified <= configured ==> s.safe == verified)
            && s.cap in {cap, configured} && s.effective == s.initialSafe == s.safe && s.failed.None?
  {}

  /** A gain suffices if it reaches the percentage and 50 kbit/s, or half of the probed step and 1 kbit/s. */
  lemma GainSuffices(gain: real, baseline: real, target: real, safe: real, percent: real)
    requires percent >= 0.0 && target >= safe
    ensures gain >= RequiredGain(baseline, target, safe, percent)
            <==> (gain >= baseline * percent / 100.0 && gain >= 50.0) || (gain >= (target - safe) / 2.0 && gain >= 1.0)
  {}

  /** A reported change is the whole change, and what is not reported is negligible. */
  lemma ChangeTracks(from: real, to: real)
    ensures match RateChange(from, to)
            case None => Abs(to - from) <= EPSILON
            case Some(Raised(before, after)) => before == from && after == to && from + EPSILON < to
            case Some(Lowered(before, after)) => before == from && after == to && to + EPSILON < from
  {}

  lemma RoundKeepsOrder(x: real, y: real)
    requires x <= y
    ensures Round(x) <= Round(y)
  {
    assert Round(x) as real < (Round(y) + 1) as real;
  }

  /** A target is above safe, within the rounded cap, and at most half way to the failed bound up to rounding. */
  lemma TargetBounds(s: State, step: real)
    requires s.safe >= 1.0 && NextProbeTarget(s, step).Some?
    requires s.failed.Some? ==> s.failed.value.0 <= Reach(s.cap)
    ensures var target := NextProbeTarget(s, step).value;
            && s.safe < target <= Round(s.cap) as real
            && (s.failed.Some? ==>
                  s.safe + 0.5 <= target <= s.safe + (s.failed.value.0 - s.safe) / 2.0 + 0.5 < s.failed.value.0)
  {
    var bounded := Halfway(s.safe, FailedBound(s), StepUp(s.safe, step));
    var clipped := MinReal(MaxReal(bounded, s.safe + 1.0), s.cap);
    RoundKeepsOrder(clipped, s.cap);
    if s.failed.Some? {
      var failed := s.failed.value.0;
      assert failed > s.safe + 1000.0;
      assert bounded <= s.safe + (failed - s.safe) / 2.0;
      assert s.safe + 1.0 <= clipped <= s.safe + (failed - s.safe) / 2.0;
    }
  }

  /** The nearest whole rate to the lowest of one step up, half way to the failed bound and the cap. */
  ghost predicate AimsRight(safe: real, failed: Option<real>, open: real, cap: real, target: real) {
    && target <= MaxReal(open, safe + 1.0) + 0.5
    && (failed.None? && safe + 1.0 <= open <= cap ==> Abs(target - open) <= 0.5)
    && (failed.None? && open >= cap ==> target == Round(cap) as real)
    && (failed.Some? ==>
          var half := (safe + failed.value) / 2.0;
          half <= open && half <= cap ==> Abs(target - half) <= 0.5)
  }

  lemma AimMeans(safe: real, failed: Option<real>, open: real, cap: real)
    requires safe < cap && (failed.Some? ==> !TooClose(safe, failed.value))
    ensures AimsRight(safe, failed, open, cap, RoundedTarget(Halfway(safe, failed, open), safe, cap))
  {}

  lemma TargetAim(s: State, step: real)
    requires NextProbeTarget(s, step).Some?
    ensures AimsRight(s.safe, FailedBound(s), StepUp(s.safe, step), s.cap, NextProbeTarget(s, step).value)
    ensures (StepUp(s.safe, step) - s.safe) * 100.0 == s.safe * step
  {
    OpenAim(s, StepUp(s.safe, step));
  }

  lemma OpenAim(s: State, open: real)
    requires NextTarget(s, open).Some?
    ensures AimsRight(s.safe, FailedBound(s), open, s.cap, NextTarget(s, open).value)
  {
    AimMeans(s.safe, FailedBound(s), open, s.cap);
  }

  lemma StampedInv(s: State, now: nat, o: Observation, policy: Policy)
    requires Inv(s)
    ensures Inv(Stamped(s, now, o, policy))
  {}

  lemma BloatedInv(s: State, now: nat, shaperRate: real)
    requires Inv(s)
    ensures Inv(Bloated(s, now, shaperRate))
  {}

  lemma AbortedInv(s: State, now: nat)
    requires Inv(s)
    ensures Inv(Aborted(s, now)) && Inv(Paused(s, now)) && Inv(Gapped(s, now)) && Inv(Reset(s, now))
  {}

  lemma QualifyingInv(s: State, now: nat, o: Observation, policy: Policy)
    requires Inv(s) && s.phase.Qualify?
    ensures Inv(Qualifying(s, now, o, policy))
  {
    if NextProbeTarget(s, policy.probeStepPercent).Some? {
      TargetBounds(s, policy.probeStepPercent);
    }
  }

  lemma ProbingInv(s: State, now: nat, o: Observation, policy: Policy)
    requires Inv(s)
    ensures s.phase.ProbeRamp? ==> Inv(Ramping(s, now, o, policy))
    ensures s.phase.ProbeObserve? ==> Inv(Watching(s, now, o, policy))
  {}

  lemma ObservedInv(s: State, now: nat, o: Observation, policy: Policy)
    requires Inv(s)
    ensures Inv(Observed(s, now, o, policy))
  {
    var e := Stamped(s, now, o, policy);
    StampedInv(s, now, o, policy);
    if o.bufferbloat {
      BloatedInv(e, now, o.shaperRate);
    } else if e.phase.Qualify? {
      QualifyingInv(e, now, o, policy);
    } else {
      ProbingInv(e, now, o, policy);
    }
  }

  // -------------------------------------------------------------------------
  // Every resolved probe against a live failed bound narrows the search.

  function Gap(s: State): real
    requires s.failed.Some?
  {
    s.failed.value.0 - s.safe
  }

  /** Promotion takes at least half a kbit/s off the gap, failure leaves at most half of it and a half. */
  lemma ResolvedProbeShrinksGap(s: State, now: nat, o: Observation, policy: Policy)
    requires Inv(s) && Probing(s.phase) && s.failed.Some?
    requires Elapsed(now, s.failed.value.1) < policy.failedBoundTtl
    ensures var after := Observed(s, now, o, policy);
            && after.failed.Some?
            && (after.safe > s.safe ==> Gap(after) <= Gap(s) - 0.5)
            && (o.bufferbloat ==> after.safe == s.safe && 0.0 < Gap(after) <= Gap(s) / 2.0 + 0.5 <= Gap(s) - 0.5)
            && (!o.bufferbloat && after.safe == s.safe ==> after.failed == s.failed)
  {}

  /** Probing stops once the gap is no more than the larger of 1000 kbit/s and half a percent of the safe rate. */
  lemma NarrowGapStopsProbing(s: State, step: real)
    requires Inv(s) && s.failed.Some?
    ensures Gap(s) <= MaxReal(s.safe * 0.005, 1000.0) ==> NextProbeTarget(s, step).None?
    ensures Gap(s) > MaxReal(s.safe * 0.005, 1000.0) ==> NextProbeTarget(s, step).Some?
  {
    if Gap(s) > MaxReal(s.safe * 0.005, 1000.0) {
      var bounded := Halfway(s.safe, FailedBound(s), StepUp(s.safe, step));
      assert MinReal(MaxReal(bounded, s.safe + 1.0), s.cap) >= s.safe + 1.0;
    }
  }

  // -------------------------------------------------------------------------
  // The object.

  class Direction {
    var cap: real
    var initialSafe: real
    var safe: real
    var effective: real
    var failed: Option<(real, nat)>
    var target: Option<real>
    var baseline: Option<real>
    var peak: real
    var phase: Phase
    var since: nat
    var lastEligible: Option<nat>

    function Value(): State
      reads this
    {
      State(cap, initialSafe, safe, effective, failed, target, baseline, peak, phase, since, lastEligible)
    }

    constructor (configured: real, absoluteCap: real, verified: real, now: nat)
      requires configured >= 1.0
      ensures Value() == Initial(configured, absoluteCap, verified, now) && Inv(Value())
    {
      var top := MaxReal(absoluteCap, configured);
      var bound := MinReal(MinReal(MaxReal(verified, 1.0), MaxReal(configured, 1.0)), top);
      cap, initialSafe, safe, effective := top, bound, bound, bound;
      failed, target, baseline, peak := None, None, None, 0.0;
      phase, since, lastEligible := Cruise, now, None;
    }

    method EnterPhase(now: nat, next: Phase)
      modifies this`phase, this`since
      ensures Value() == Enter(old(Value()), now, next)
    {
      phase := next;
      since := now;
    }

    method Close()
      modifies this`target, this`baseline, this`peak, this`effective, this`lastEligible
      ensures Value() == Closed(old(Value()))
    {
      target := None;
      baseline := None;
      peak := 0.0;
      effective := safe;
      lastEligible := None;
    }

    method AbortProbe(now: nat) returns (change: Option<Change>)
      requires Inv(Value())
      modifies this
      ensures Value() == Aborted(old(Value()), now) && Inv(Value())
      ensures change == RateChange(old(effective), effective)
    {
      var previous := effective;
      Close();
      EnterPhase(now, Backoff);
      change := RateChange(previous, effective);
    }

    method RecordFailedBound(bound: real, now: nat)
      modifies this`failed
      ensures Value() == Recorded(old(Value()), bound, now)
    {
      failed := Some((if failed.Some? then MinReal(failed.value.0, bound) else bound, now));
    }

    method HandleBufferbloat(now: nat, shaperRate: real) returns (change: Option<Change>)
      requires Inv(Value())
      modifies this
      ensures Value() == Bloated(old(Value()), now, shaperRate) && Inv(Value())
      ensures change == RateChange(old(effective), effective)
    {
      BloatedInv(Value(), now, shaperRate);
      if phase == Backoff {
        return None;
      }
      var previous := effective;
      var bound := MaxReal(if target.Some? then target.value else effective, initialSafe);
      if bound > safe {
        RecordFailedBound(bound, now);
      } else if safe > initialSafe && shaperRate < safe {
        RecordFailedBound(safe, now);
        safe := MaxReal(shaperRate, initialSafe);
      }
      Close();
      EnterPhase(now, Backoff);
      change := RateChange(previous, effective);
    }

    method ExpireFailedBound(now: nat, ttl: nat)
      modifies this`failed
      ensures Value() == Expired(old(Value()), now, ttl)
    {
      if failed.Some? && Elapsed(now, failed.value.1) >= ttl {
        failed := None;
      }
    }

    /** One observation: the ceiling moves as specified, and the reported change is the ceiling's. */
    method Observe(now: nat, o: Observation, policy: Policy) returns (change: Option<Change>)
      requires Inv(Value())
      modifies this
      ensures Value() == Observed(old(Value()), now, o, policy) && Inv(Value())
      ensures change == RateChange(old(effective), effective)
    {
      ObservedInv(Value(), now, o, policy);
      StampedInv(Value(), now, o, policy);
      ExpireFailedBound(now, policy.failedBoundTtl);
      if o.eligible {
        lastEligible := Some(now);
      }
      if o.bufferbloat {
        change := HandleBufferbloat(now, o.shaperRate);
        return;
      }
      match phase {
        case Cruise => change := ObserveCruise(now, o, policy);
        case Qualify => change := ObserveQualify(now, o, policy);
        case ProbeRamp => change := ObserveRamp(now, o, policy);
        case ProbeObserve => change := ObserveProbe(now, o, policy);
        case Backoff => change := ObserveBackoff(now, policy);
      }
    }

    method ObserveCruise(now: nat, o: Observation, policy: Policy) returns (change: Option<Change>)
      modifies this`baseline, this`peak, this`phase, this`since
      ensures Value() == Cruising(old(Value()), now, o, policy)
      ensures change == RateChange(old(effective), effective)
    {
      change := None;
      if o.eligible && AtCeiling(Value(), o.shaperRate) && NextProbeTarget(Value(), policy.probeStepPercent).Some? {
        baseline := Some(NotNegative(o.achievedRate));
        peak := 0.0;
        EnterPhase(now, Qualify);
      }
    }

    method ObserveBackoff(now: nat, policy: Policy) returns (change: Option<Change>)
      modifies this`phase, this`since
      ensures Value() == CoolingDown(old(Value()), now, policy)
      ensures change == RateChange(old(effective), effective)
    {
      change := None;
      if Elapsed(now, since) >= policy.cooldown {
        EnterPhase(now, Cruise);
      }
    }

    method ObserveQualify(now: nat, o: Observation, policy: Policy) returns (change: Option<Change>)
      requires Inv(Value()) && phase == Qualify
      modifies this
      ensures Value() == Qualifying(old(Value()), now, o, policy)
      ensures change == RateChange(old(effective), effective)
    {
      change := None;
      var aim := NextProbeTarget(Value(), policy.probeStepPercent);
      if o.eligible {
        baseline := Some(MaxReal(if baseline.Some? then baseline.value else 0.0, NotNegative(o.achievedRate)));
      }
      if EligibilityExpired(Value(), now, policy.eligibilityGrace) {
        baseline := None;
        peak := 0.0;
        EnterPhase(now, Cruise);
      } else if Elapsed(now, since) >= policy.holdTime && o.eligible && AtCeiling(Value(), o.shaperRate) {
        if aim.Some? {
          var previous := effective;
          target := aim;
          effective := aim.value;
          change := RateChange(previous, effective);
          EnterPhase(now, ProbeRamp);
        } else {
          baseline := None;
          peak := 0.0;
          EnterPhase(now, Cruise);
        }
      }
    }

    method ObserveRamp(now: nat, o: Observation, policy: Policy) returns (change: Option<Change>)
      requires Inv(Value()) && phase == ProbeRamp
      modifies this
      ensures Value() == Ramping(old(Value()), now, o, policy)
      ensures change == RateChange(old(effective), effective)
    {
      change := None;
      if EligibilityExpired(Value(), now, policy.eligibilityGrace) {
        change := AbortProbe(now);
        return;
      }
      if o.eligible {
        peak := MaxReal(peak, NotNegative(o.achievedRate));
      }
      var aim := if target.Some? then target.value else safe;
      if o.eligible && o.shaperRate >= aim * 0.98 {
        EnterPhase(now, ProbeObserve);
      } else if Elapsed(now, since) >= RampTimeout(policy) {
        change := AbortProbe(now);
      }
    }

    method ObserveProbe(now: nat, o: Observation, policy: Policy) returns (change: Option<Change>)
      requires Inv(Value()) && phase == ProbeObserve
      modifies this
      ensures Value() == Watching(old(Value()), now, o, policy)
      ensures change == RateChange(old(effective), effective)
    {
      change := None;
      if EligibilityExpired(Value(), now, policy.eligibilityGrace) {
        change := AbortProbe(now);
        return;
      }
      if o.eligible {
        peak := MaxReal(peak, NotNegative(o.achievedRate));
      }
      if o.eligible && Elapsed(now, since) >= policy.probeDuration {
        if !GainShown(Value(), policy) {
          change := AbortProbe(now);
          return;
        }
        safe := if target.Some? then target.value else safe;
        effective := safe;
        target := None;
        baseline := None;
        peak := 0.0;
        EnterPhase(now, Backoff);
      }
    }

    method Pause(now: nat) returns (change: Option<Change>)
      requires Inv(Value())
      modifies this
      ensures Value() == Paused(old(Value()), now) && Inv(Value())
      ensures change == RateChange(old(effective), effective)
    {
      var previous := effective;
      Close();
      EnterPhase(now, Cruise);
      change := RateChange(previous, effective);
    }

    method AbortProbeGap(now: nat) returns (change: Option<Change>)
      requires Inv(Value())
      modifies this
      ensures Value() == Gapped(old(Value()), now) && Inv(Value())
      ensures change == RateChange(old(effective), effective)
    {
      change := None;
      if phase == Qualify || phase == ProbeRamp || phase == ProbeObserve {
        change := AbortProbe(now);
      }
    }

    method ResetToConfigured(now: nat) returns (change: Option<Change>)
      requires Inv(Value())
      modifies this
      ensures Value() == Reset(old(Value()), now) && Inv(Value())
      ensures change == RateChange(old(effective), effective)
    {
      var previous := effective;
      safe := initialSafe;
      failed := None;
      Close();
      EnterPhase(now, Cruise);
      change := RateChange(previous, effective);
    }
  }
}
