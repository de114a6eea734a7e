/**
  * Whole runs of the adaptive ceiling: what must have been observed before the
  * safe ceiling rises, and how far apart two rises are.
  */
module AdaptiveCeilingRuns {
  import opened Selection
  import opened AdaptiveCeiling

  datatype Event =
    | Observing(now: nat, o: Observation, policy: Policy)
    | Pausing(now: nat)
    | Gapping(now: nat)
    | Resetting(now: nat)

  function Apply(s: State, e: Event): State {
    match e
    case Observing(now, o, policy) => Observed(s, now, o, policy)
    case Pausing(now) => Paused(s, now)
    case Gapping(now) => Gapped(s, now)
    case Resetting(now) => Reset(s, now)
  }

  function Run(start: State, events: seq<Event>): State {
    if events == [] then start else Apply(Run(start, events[..|events| - 1]), events[|events| - 1])
  }

  lemma CapStays(s: State, e: Event)
    ensures Apply(s, e).cap == s.cap
  {}

  lemma StepKeepsInv(s: State, e: Event)
    requires Inv(s)
    ensures Inv(Apply(s, e)) && Apply(s, e).cap == s.cap
  {
    CapStays(s, e);
    match e
    case Observing(now, o, policy) => ObservedInv(s, now, o, policy);
    case Pausing(now) => AbortedInv(s, now);
    case Gapping(now) => AbortedInv(s, now);
    case Resetting(now) => AbortedInv(s, now);
  }

  lemma {:induction false} RunInv(start: State, events: seq<Event>)
    requires Inv(start)
    ensures Inv(Run(start, events)) && Run(start, events).cap == start.cap
  {
    if events != [] {
      RunInv(start, events[..|events| - 1]);
      StepKeepsInv(Run(start, events[..|events| - 1]), events[|events| - 1]);
    }
  }

  // -------------------------------------------------------------------------
  // When the ceiling stays within the cap.

  /** Rounding takes the cap nowhere above itself, or no probe can start below it. */
  predicate KeepsCap(start: State) {
    || Round(start.cap) as real <= start.cap
    || start.initialSafe >= start.cap
    || Round(start.cap) as real <= start.initialSafe + EPSILON
  }

  /** No probe can ever start. */
  predicate Stuck(s: State) {
    && Inv(s) && s.target.None? && s.safe == s.initialSafe
    && (s.initialSafe >= s.cap || Round(s.cap) as real <= s.initialSafe + EPSILON)
  }

  lemma NoTargetWhenStuck(s: State, step: real)
    requires Stuck(s)
    ensures NextProbeTarget(s, step).None?
  {
    if NextProbeTarget(s, step).Some? {
      TargetBounds(s, step);
    }
  }

  lemma {:induction false} StuckForGood(start: State, events: seq<Event>)
    requires Stuck(start)
    ensures Stuck(Run(start, events)) && Run(start, events).cap == start.cap
  {
    if events != [] {
      var s, e := Run(start, events[..|events| - 1]), events[|events| - 1];
      StuckForGood(start, events[..|events| - 1]);
      StepKeepsInv(s, e);
      if e.Observing? {
        NoTargetWhenStuck(Stamped(s, e.now, e.o, e.policy), e.policy.probeStepPercent);
      }
    }
  }

  /** Clean high load without a hold time, and a step beyond the cap. */
  function Eager(s: State): Event {
    var policy := Policy(0, 100.0 * s.cap, 0, 0, 0, 0, 0.0);
    Observing(s.since, Observation(true, false, s.effective, s.effective), policy)
  }

  /** Two observations take a start that does not keep the cap above it. */
  lemma Overshoots(start: State)
    requires Inv(start) && start.phase.Cruise? && start.failed.None? && start.safe == start.initialSafe
    requires !KeepsCap(start)
    ensures Run(start, [Eager(start), Eager(start)]).effective == Round(start.cap) as real > start.cap
  {
    var e := Eager(start);
    assert [e, e][..1] == [e] && [e][..0] == [];
    assert Run(start, [e]) == Apply(start, e);
    EagerTarget(start);
    EagerQualifies(start);
    EagerOpens(Apply(start, e), e, Round(start.cap) as real);
  }

  lemma EagerQualifies(start: State)
    requires Inv(start) && start.phase.Cruise? && start.failed.None?
    requires NextProbeTarget(start, Eager(start).policy.probeStepPercent).Some?
    ensures var s := Apply(start, Eager(start));
            && s.phase.Qualify? && s.failed.None? && s.since == start.since
            && s.safe == start.safe && s.effective == start.effective && s.cap == start.cap
  {}

  lemma EagerOpens(s: State, e: Event, target: real)
    requires e.Observing? && s.phase.Qualify? && s.failed.None? && e.now == s.since && e.policy.holdTime == 0
    requires e.o.eligible && !e.o.bufferbloat && e.o.shaperRate == s.effective >= 0.0
    requires NextProbeTarget(s, e.policy.probeStepPercent) == Some(target)
    ensures Apply(s, e).effective == target
  {}

  lemma EagerTarget(start: State)
    requires start.safe >= 1.0 && start.failed.None? && start.safe == start.initialSafe && !KeepsCap(start)
    ensures NextProbeTarget(start, Eager(start).policy.probeStepPercent) == Some(Round(start.cap) as real)
  {
    Stretch(start.safe, start.cap);
  }

  lemma Stretch(safe: real, cap: real)
    requires safe >= 1.0 && cap >= 0.0
    ensures safe * (1.0 + 100.0 * cap / 100.0) >= cap
  {}

  /** From any initial state: the ceiling stays within the cap over every run exactly if that state keeps it. */
  lemma CeilingWithinCapIff(configured: real, cap: real, verified: real, now: nat)
    requires configured >= 1.0
    ensures var start := Initial(configured, cap, verified, now);
            (forall events :: Run(start, events).effective <= start.cap) <==> KeepsCap(start)
  {
    var start := Initial(configured, cap, verified, now);
    InitialInv(configured, cap, verified, now);
    if KeepsCap(start) {
      forall events ensures Run(start, events).effective <= start.cap {
        RunInv(start, events);
        if Round(start.cap) as real > start.cap { StuckForGood(start, events); }
      }
    } else {
      Overshoots(start);
    }
  }

  /** It happens: a cap of 10000.6 kbit/s is exceeded by the first probe from a verified 10000. */
  lemma FractionalCapIsExceeded()
    ensures var start := Initial(10_000.0, 10_000.6, 10_000.0, 0);
            NextProbeTarget(start, 3.0) == Some(10_001.0) && start.cap == 10_000.6
            && exists events :: Run(start, events).effective > start.cap
  {
    var start := Initial(10_000.0, 10_000.6, 10_000.0, 0);
    assert Round(10_000.6) == 10_001;
    CeilingWithinCapIff(10_000.0, 10_000.6, 10_000.0, 0);
  }

  predicate Clean(e: Event) { e.Observing? && !e.o.bufferbloat }

  predicate CleanSpan(events: seq<Event>, i: nat, j: nat)
    requires j <= |events|
  {
    forall k :: i <= k < j ==> Clean(events[k])
  }

  /** The best throughput of the eligible observations from i to j. */
  function Best(events: seq<Event>, i: nat, j: nat): real
    requires j <= |events|
  {
    if j <= i then 0.0
    else
      var e := events[j - 1];
      MaxReal(Best(events, i, j - 1), if e.Observing? && e.o.eligible then NotNegative(e.o.achievedRate) else 0.0)
  }

  lemma {:induction false} BestOfPrefix(events: seq<Event>, e: Event, i: nat, j: nat)
    requires j <= |events|
    ensures Best(events + [e], i, j) == Best(events, i, j) >= 0.0
  {
    if j > i {
      BestOfPrefix(events, e, i, j - 1);
    }
  }

  /** The qualification, opening and reached indices behind a state. */
  datatype Marks = Marks(qualified: nat, open: nat, reached: nat)

  predicate QualifyStory(events: seq<Event>, s: State, m: Marks) {
    && m.qualified < |events| && CleanSpan(events, m.qualified, |events|)
    && s.since == events[m.qualified].now && s.peak == 0.0
    && s.baseline == Some(Best(events, m.qualified, |events|))
  }

  predicate ProbeStory(events: seq<Event>, s: State, m: Marks) {
    && m.qualified < m.open < |events| && CleanSpan(events, m.qualified, |events|)
    && Elapsed(events[m.open].now, events[m.qualified].now) >= events[m.open].policy.holdTime
    && s.baseline == Some(Best(events, m.qualified, m.open + 1))
    && s.peak == Best(events, m.open + 1, |events|)
    && (s.phase.ProbeRamp? ==> s.since == events[m.open].now)
    && (s.phase.ProbeObserve? ==>
          && m.open < m.reached < |events| && s.since == events[m.reached].now
          && events[m.reached].o.eligible && s.target.Some? && events[m.reached].o.shaperRate >= s.target.value * 0.98)
  }

  predicate Story(events: seq<Event>, s: State, m: Marks) {
    && (s.phase.Qualify? ==> QualifyStory(events, s, m))
    && (Probing(s.phase) ==> ProbeStory(events, s, m))
  }

  lemma LongerSpan(events: seq<Event>, e: Event, i: nat)
    requires CleanSpan(events, i, |events|) && Clean(e)
    ensures CleanSpan(events + [e], i, |events| + 1)
  {}

  lemma CruiseStep(events: seq<Event>, s: State, e: Event) returns (m: Marks)
    requires Inv(s) && s.phase.Cruise? && Clean(e)
    ensures Story(events + [e], Apply(s, e), m)
    ensures Active(Apply(s, e).phase) ==> m.qualified == |events|
  {
    m := Marks(|events|, 0, 0);
    BestOfPrefix(events, e, |events|, |events|);
    assert (events + [e])[|events|] == e;
  }

  lemma QualifyStep(events: seq<Event>, s: State, m: Marks, e: Event) returns (n: Marks)
    requires Inv(s) && s.phase.Qualify? && QualifyStory(events, s, m) && Clean(e)
    ensures Story(events + [e], Apply(s, e), n) && n.qualified == m.qualified
  {
    n := Marks(m.qualified, |events|, 0);
    var longer := events + [e];
    LongerSpan(events, e, m.qualified);
    BestOfPrefix(events, e, m.qualified, |events|);
    assert longer[|events|] == e && longer[m.qualified] == events[m.qualified];
    assert Best(longer, |events| + 1, |longer|) == 0.0;
    assert Best(longer, m.qualified, |longer|)
           == MaxReal(Best(events, m.qualified, |events|), if e.o.eligible then NotNegative(e.o.achievedRate) else 0.0);
  }

  /** What stays true of the marks and the best rates when a clean event is added. */
  lemma ProbeFacts(events: seq<Event>, s: State, m: Marks, e: Event)
    requires ProbeStory(events, s, m) && Clean(e)
    ensures var longer := events + [e];
            && CleanSpan(longer, m.qualified, |longer|)
            && longer[m.qualified] == events[m.qualified] && longer[m.open] == events[m.open] && longer[|events|] == e
            && Best(longer, m.qualified, m.open + 1) == Best(events, m.qualified, m.open + 1)
            && Best(longer, m.open + 1, |longer|) == Peaked(s, e.o).peak
  {
    LongerSpan(events, e, m.qualified);
    BestOfPrefix(events, e, m.qualified, m.open + 1);
    BestOfPrefix(events, e, m.open + 1, |events|);
  }

  lemma RampStep(events: seq<Event>, s: State, m: Marks, e: Event)
    requires Inv(s) && s.phase.ProbeRamp? && ProbeStory(events, s, m) && Clean(e)
    ensures Story(events + [e], Apply(s, e), Marks(m.qualified, m.open, |events|))
  {
    ProbeFacts(events, s, m, e);
  }

  lemma WatchStep(events: seq<Event>, s: State, m: Marks, e: Event)
    requires Inv(s) && s.phase.ProbeObserve? && ProbeStory(events, s, m) && Clean(e)
    ensures Story(events + [e], Apply(s, e), m)
  {
    ProbeFacts(events, s, m, e);
    assert (events + [e])[m.reached] == events[m.reached];
  }

  lemma ProbeStep(events: seq<Event>, s: State, m: Marks, e: Event) returns (n: Marks)
    requires Inv(s) && Probing(s.phase) && ProbeStory(events, s, m) && Clean(e)
    ensures Story(events + [e], Apply(s, e), n) && n.qualified == m.qualified
  {
    if s.phase.ProbeRamp? {
      n := Marks(m.qualified, m.open, |events|);
      RampStep(events, s, m, e);
    } else {
      n := m;
      WatchStep(events, s, m, e);
    }
  }

  /** From qualification on, the run has been qualifying or probing. */
  ghost predicate ActiveSpan(start: State, events: seq<Event>, qualified: nat) {
    forall k :: qualified < k <= |events| ==> Active(Run(start, events[..k]).phase)
  }

  lemma ExtendActive(start: State, events: seq<Event>, e: Event, qualified: nat)
    requires qualified <= |events| && ActiveSpan(start, events, qualified)
    requires Active(Run(start, events + [e]).phase)
    ensures ActiveSpan(start, events + [e], qualified)
  {
    var longer := events + [e];
    forall k | qualified < k <= |longer| ensures Active(Run(start, longer[..k]).phase) {
      if k == |longer| {
        assert longer[..k] == longer;
      } else {
        assert longer[..k] == events[..k];
      }
    }
  }

  /** An unclean event ends every qualification and probe. */
  lemma UncleanStep(s: State, e: Event)
    requires Inv(s) && !Clean(e)
    ensures !Active(Apply(s, e).phase)
  {}

  lemma {:induction false} Tell(start: State, events: seq<Event>) returns (m: Marks)
    requires Inv(start) && !Active(start.phase)
    ensures Story(events, Run(start, events), m)
    ensures Active(Run(start, events).phase) ==> ActiveSpan(start, events, m.qualified)
  {
    m := Marks(0, 0, 0);
    if events != [] {
      var before, e := events[..|events| - 1], events[|events| - 1];
      var s := Run(start, before);
      assert events == before + [e];
      RunInv(start, before);
      var told := Tell(start, before);
      if !Clean(e) {
        UncleanStep(s, e);
      } else if s.phase.Cruise? {
        m := CruiseStep(before, s, e);
        if Active(Run(start, events).phase) {
          assert events[..|events|] == events;
        }
      } else if s.phase.Qualify? {
        m := QualifyStep(before, s, told, e);
      } else if Probing(s.phase) {
        m := ProbeStep(before, s, told, e);
      }
      if Active(s.phase) && Active(Run(start, events).phase) {
        ExtendActive(start, before, e, m.qualified);
      }
    }
  }

  /**
    * Only a clean, eligible observation at the end of a probe raises the safe ceiling, and it raises it
    * to the target.
    */
  lemma OnlyWatchingRaises(s: State, e: Event)
    requires Inv(s) && Apply(s, e).safe > s.safe
    ensures Clean(e) && e.o.eligible && s.phase.ProbeObserve?
    ensures Apply(s, e).safe == s.target.value && Apply(s, e).phase.Backoff?
    ensures Elapsed(e.now, s.since) >= e.policy.probeDuration
    ensures var baseline := if s.baseline.Some? then s.baseline.value else 0.0;
            var peak := MaxReal(s.peak, NotNegative(e.o.achievedRate));
            baseline > 0.0 ==>
              peak + EPSILON >= baseline + RequiredGain(baseline, s.target.value, s.safe, e.policy.minimumGainPercent)
  {}

  /**
    * The evidence behind a rise: since qualification every event was an
    * observation without bufferbloat; the shaper reached 98% of the new ceiling;
    * and the best throughput since the probe opened beats the best before it by
    * the required gain.
    */
  lemma RiseHasEvidence(start: State, events: seq<Event>, e: Event) returns (m: Marks)
    requires Inv(start) && !Active(start.phase)
    requires Run(start, events + [e]).safe > Run(start, events).safe
    ensures m.qualified < m.open < m.reached < |events|
    ensures CleanSpan(events + [e], m.qualified, |events| + 1) && ActiveSpan(start, events, m.qualified)
    ensures Elapsed(events[m.open].now, events[m.qualified].now) >= events[m.open].policy.holdTime
    ensures Elapsed(e.now, events[m.reached].now) >= e.policy.probeDuration
    ensures events[m.reached].o.shaperRate >= Run(start, events + [e]).safe * 0.98
    ensures var all := events + [e];
            var baseline, peak := Best(all, m.qualified, m.open + 1), Best(all, m.open + 1, |all|);
            baseline > 0.0 ==>
              peak + EPSILON
              >= baseline + RequiredGain(baseline, Run(start, all).safe, Run(start, events).safe,
                                         e.policy.minimumGainPercent)
  {
    var s, all := Run(start, events), events + [e];
    assert all[..|events|] == events;
    RunInv(start, events);
    OnlyWatchingRaises(s, e);
    m := Tell(start, events);
    LongerSpan(events, e, m.qualified);
    BestOfPrefix(events, e, m.qualified, m.open + 1);
    BestOfPrefix(events, e, m.open + 1, |events|);
    assert Best(all, m.open + 1, |all|) == MaxReal(s.peak, NotNegative(e.o.achievedRate));
  }

  predicate InOrder(events: seq<Event>) { forall i, j :: 0 <= i < j < |events| ==> events[i].now <= events[j].now }

  /** The later rise qualified only after the earlier one. */
  lemma RisesDoNotOverlap(start: State, events: seq<Event>, i: nat, qualified: nat)
    requires Inv(start) && i < |events|
    requires Run(start, events[..i + 1]).safe > Run(start, events[..i]).safe
    requires ActiveSpan(start, events, qualified)
    ensures i < qualified
  {
    RunInv(start, events[..i]);
    assert events[..i + 1][..i] == events[..i];
    OnlyWatchingRaises(Run(start, events[..i]), events[i]);
    assert !Active(Run(start, events[..i + 1]).phase);
  }

  /** With one policy and ordered time, two rises are at least the hold time and the probe duration apart. */
  lemma RisesAreApart(start: State, events: seq<Event>, i: nat, e: Event, policy: Policy)
    requires Inv(start) && !Active(start.phase) && i < |events| && InOrder(events + [e])
    requires forall k :: 0 <= k < |events| && events[k].Observing? ==> events[k].policy == policy
    requires e.Observing? ==> e.policy == policy
    requires Run(start, events[..i + 1]).safe > Run(start, events[..i]).safe
    requires Run(start, events + [e]).safe > Run(start, events).safe
    ensures e.now >= events[i].now + policy.holdTime + policy.probeDuration
  {
    var m := RiseHasEvidence(start, events, e);
    RisesDoNotOverlap(start, events, i, m.qualified);
    var all := events + [e];
    assert all[|events|] == e && all[i] == events[i];
    assert Clean(all[m.open]) && Clean(all[|events|]);
    assert all[i].now <= all[m.qualified].now <= all[m.open].now <= all[m.reached].now <= all[|events|].now;
  }

  // -------------------------------------------------------------------------
  // How many probes one failed bound allows.

  /** The failed bound is live at this event and stays, and the safe ceiling is not lowered. */
  predicate Steady(s: State, e: Event) {
    && s.failed.Some? && Apply(s, e).failed.Some? && Apply(s, e).safe >= s.safe
    && (e.Observing? ==> Elapsed(e.now, s.failed.value.1) < e.policy.failedBoundTtl)
  }

  /** A probe ends here by promotion or by bufferbloat. */
  predicate Resolves(s: State, e: Event) {
    Probing(s.phase) && (Apply(s, e).safe > s.safe || (e.Observing? && e.o.bufferbloat))
  }

  function Resolutions(start: State, events: seq<Event>): nat {
    if events == [] then 0
    else
      var before, e := events[..|events| - 1], events[|events| - 1];
      Resolutions(start, before) + if Resolves(Run(start, before), e) then 1 else 0
  }

  ghost predicate SteadyRun(start: State, events: seq<Event>) {
    start.failed.Some? && forall i :: 0 <= i < |events| ==> Steady(Run(start, events[..i]), events[i])
  }

  /** The gap never widens; a resolved probe had more than 1000 kbit/s of it and takes off at least 0.5. */
  lemma SteadyGap(s: State, e: Event)
    requires Inv(s) && Steady(s, e)
    ensures Gap(Apply(s, e)) <= Gap(s)
    ensures Resolves(s, e) ==> Gap(s) > 1000.0 && Gap(Apply(s, e)) <= Gap(s) - 0.5
  {
    if e.Observing? && Probing(s.phase) {
      ResolvedProbeShrinksGap(s, e.now, e.o, e.policy);
    }
  }

  /**
    * While a failed bound is live and safe is not lowered, only finitely many probes
    * are promoted or fail: fewer than twice the gap beyond 1000 kbit/s, and one.
    */
  lemma {:induction false} ProbesAreFinite(start: State, events: seq<Event>)
    requires Inv(start) && SteadyRun(start, events)
    ensures Run(start, events).failed.Some?
    ensures Gap(Run(start, events)) + 0.5 * Resolutions(start, events) as real <= Gap(start)
    ensures Resolutions(start, events) > 0 ==> Resolutions(start, events) as real < 2.0 * (Gap(start) - 1000.0) + 1.0
  {
    if events != [] {
      var before, e := events[..|events| - 1], events[|events| - 1];
      forall i | 0 <= i < |before| ensures Steady(Run(start, before[..i]), before[i]) {
        assert before[..i] == events[..i];
        assert Steady(Run(start, events[..i]), events[i]);
      }
      ProbesAreFinite(start, before);
      RunInv(start, before);
      assert Steady(Run(start, events[..|before|]), events[|before|]);
      SteadyGap(Run(start, before), e);
    }
  }

  // -------------------------------------------------------------------------
  // What a failing probe leaves behind.

  /**
    * Bufferbloat ends every probe and never raises a ceiling. While probing it
    * records a bound of at most the probed ceiling, now; otherwise it lowers a safe
    * ceiling that was raised before, when the shaper was below it.
    */
  lemma BloatIsRecorded(s: State, now: nat, o: Observation, policy: Policy)
    requires Inv(s) && o.bufferbloat
    ensures var after := Observed(s, now, o, policy);
            && after.phase.Backoff? && after.effective == after.safe <= s.safe
            && (Probing(s.phase) ==>
                  && after.failed.Some? && after.failed.value.0 <= s.effective && after.failed.value.1 == now
                  && after.safe == s.safe < after.failed.value.0)
            && (!Probing(s.phase) && !s.phase.Backoff? && s.safe > s.initialSafe && o.shaperRate < s.safe ==>
                  && after.failed.Some? && after.failed.value.0 <= s.safe && after.failed.value.1 == now
                  && after.safe == MaxReal(o.shaperRate, s.initialSafe))
            && (!Probing(s.phase) && (s.phase.Backoff? || s.safe == s.initialSafe || o.shaperRate >= s.safe) ==>
                  after.safe == s.safe && after.failed == Expired(s, now, policy.failedBoundTtl).failed)
  {}

  /** A bound of at most `top` recorded no earlier than `since`. */
  predicate Bounded(s: State, top: real, since: nat) {
    s.failed.Some? && s.failed.value.0 <= top && s.failed.value.1 >= since
  }

  /** An event, not earlier, that neither resets nor outlives a bound recorded at `since`. */
  predicate Within(e: Event, since: nat) {
    && since <= e.now && !e.Resetting?
    && (e.Observing? ==> Elapsed(e.now, since) < e.policy.failedBoundTtl)
  }

  lemma BoundStays(s: State, e: Event, top: real, since: nat)
    requires Inv(s) && Bounded(s, top, since) && Within(e, since)
    ensures Bounded(Apply(s, e), top, since)
  {}

  lemma {:induction false} BoundLasts(start: State, events: seq<Event>, top: real, since: nat)
    requires Inv(start) && Bounded(start, top, since) && forall k :: 0 <= k < |events| ==> Within(events[k], since)
    ensures Bounded(Run(start, events), top, since)
  {
    if events != [] {
      var before := events[..|events| - 1];
      BoundLasts(start, before, top, since);
      RunInv(start, before);
      BoundStays(Run(start, before), events[|events| - 1], top, since);
    }
  }

  /** Bufferbloat while probing some ceiling keeps every later ceiling below it, for as long as the bound lives. */
  lemma FailedCeilingIsAvoided(start: State, events: seq<Event>, bloat: Event)
    requires Inv(start) && Probing(start.phase) && bloat.Observing? && bloat.o.bufferbloat
    requires forall k :: 0 <= k < |events| ==> Within(events[k], bloat.now)
    ensures Run(Apply(start, bloat), events).effective < start.effective
    ensures Bounded(Run(Apply(start, bloat), events), start.effective, bloat.now)
  {
    var failed := Apply(start, bloat);
    StepKeepsInv(start, bloat);
    BloatIsRecorded(start, bloat.now, bloat.o, bloat.policy);
    BoundLasts(failed, events, start.effective, bloat.now);
    RunInv(failed, events);
  }

  // -------------------------------------------------------------------------
  // What must happen, and for how long nothing may.

  /** Clean, eligible load at a shaper rate. */
  function Loaded(now: nat, shaperRate: real, achievedRate: real, policy: Policy): Event {
    Observing(now, Observation(true, false, shaperRate, achievedRate), policy)
  }

  /** Clean load at the ceiling starts a qualification exactly when there is room to probe. */
  lemma LoadQualifies(s: State, now: nat, shaperRate: real, achievedRate: real, policy: Policy)
    requires Inv(s) && s.phase.Cruise? && shaperRate >= s.effective * 0.98
    ensures var after := Apply(s, Loaded(now, shaperRate, achievedRate, policy));
            && (after.phase.Qualify? <==> NextProbeTarget(Expired(s, now, policy.failedBoundTtl),
                                                          policy.probeStepPercent).Some?)
            && (after.phase.Qualify? ==> after.since == now && after.baseline == Some(NotNegative(achievedRate)))
            && after.safe == s.safe && after.effective == s.effective
  {}

  /** After the hold time more of it opens the probe at the next target. */
  lemma LoadOpensProbe(s: State, now: nat, shaperRate: real, achievedRate: real, policy: Policy, target: real)
    requires Inv(s) && s.phase.Qualify? && shaperRate >= s.effective * 0.98
    requires Elapsed(now, s.since) >= policy.holdTime
    requires NextProbeTarget(Expired(s, now, policy.failedBoundTtl), policy.probeStepPercent) == Some(target)
    ensures var after := Apply(s, Loaded(now, shaperRate, achievedRate, policy));
            && after.phase.ProbeRamp? && after.since == now && after.effective == target && after.safe == s.safe
            && after.target == Some(target) && after.peak == s.peak
  {}

  /** Reaching the target starts the observation. */
  lemma LoadReachesTarget(s: State, now: nat, shaperRate: real, achievedRate: real, policy: Policy)
    requires Inv(s) && s.phase.ProbeRamp? && shaperRate >= s.effective * 0.98
    ensures var after := Apply(s, Loaded(now, shaperRate, achievedRate, policy));
            && after.phase.ProbeObserve? && after.since == now && after.target == s.target
            && after.baseline == s.baseline && after.peak == MaxReal(s.peak, NotNegative(achievedRate))
            && after.safe == s.safe
  {}

  /** After the probe duration the target becomes safe exactly if the gain was shown. */
  lemma LoadPromotes(s: State, now: nat, shaperRate: real, achievedRate: real, policy: Policy)
    requires Inv(s) && s.phase.ProbeObserve? && Elapsed(now, s.since) >= policy.probeDuration
    ensures var after := Apply(s, Loaded(now, shaperRate, achievedRate, policy));
            var baseline := if s.baseline.Some? then s.baseline.value else 0.0;
            var peak := MaxReal(s.peak, NotNegative(achievedRate));
            && after.phase.Backoff? && after.since == now
            && after.safe == after.effective
            && (after.safe == s.target.value <==>
                  baseline > 0.0 ==>
                    peak + EPSILON
                    >= baseline + RequiredGain(baseline, s.target.value, s.safe, policy.minimumGainPercent))
            && (after.safe == s.target.value || after.safe == s.safe)
  {}

  /**
    * A clean, loaded link raises the ceiling: load at the ceiling, still there after
    * the hold time, at the target, and still there after the probe duration with the
    * required gain over the baseline, make the first target the safe ceiling.
    */
  lemma CleanLoadRaises(s: State, policy: Policy, times: (nat, nat, nat, nat), target: real, baseline: real, peak: real)
    requires Inv(s) && s.phase.Cruise? && s.failed.None? && NextProbeTarget(s, policy.probeStepPercent) == Some(target)
    requires Elapsed(times.1, times.0) >= policy.holdTime && Elapsed(times.3, times.2) >= policy.probeDuration
    requires 0.0 < baseline && peak >= baseline + RequiredGain(baseline, target, s.safe, policy.minimumGainPercent)
    ensures var first := [Loaded(times.0, s.effective, baseline, policy),
                          Loaded(times.1, s.effective, baseline, policy)];
            var events := first + [Loaded(times.2, target, peak, policy), Loaded(times.3, target, peak, policy)];
            Run(s, events).safe == Run(s, events).effective == target > s.safe
  {
    var e0, e1 := Loaded(times.0, s.effective, baseline, policy), Loaded(times.1, s.effective, baseline, policy);
    var e2, e3 := Loaded(times.2, target, peak, policy), Loaded(times.3, target, peak, policy);
    var s1 := Apply(s, e0);
    var s2 := Apply(s1, e1);
    var s3 := Apply(s2, e2);
    StepKeepsInv(s, e0);
    LoadQualifies(s, times.0, s.effective, baseline, policy);
    StepKeepsInv(s1, e1);
    QualifiedTarget(s, e0, policy);
    LoadOpensProbe(s1, times.1, s.effective, baseline, policy, target);
    StepKeepsInv(s2, e2);
    LoadReachesTarget(s2, times.2, target, peak, policy);
    QualifiedBaseline(s1, e1, baseline);
    LoadPromotes(s3, times.3, target, peak, policy);
    RunOfFour(s, e0, e1, e2, e3);
    assert [e0, e1] + [e2, e3] == [e0, e1, e2, e3];
  }

  lemma QualifiedTarget(s: State, e: Event, policy: Policy)
    requires Inv(s) && s.phase.Cruise? && s.failed.None? && Clean(e) && Apply(s, e).phase.Qualify?
    ensures var s1 := Apply(s, e);
            && s1.failed.None? && s1.peak == 0.0
            && NextProbeTarget(s1, policy.probeStepPercent) == NextProbeTarget(s, policy.probeStepPercent)
  {}

  lemma QualifiedBaseline(s1: State, e1: Event, baseline: real)
    requires Inv(s1) && s1.phase.Qualify? && s1.baseline == Some(baseline)
    requires Clean(e1) && Apply(s1, e1).phase.ProbeRamp?
    requires e1.o.eligible && e1.o.achievedRate == baseline > 0.0
    ensures Apply(s1, e1).baseline == Some(baseline)
  {}

  lemma RunOfFour(s: State, a: Event, b: Event, c: Event, d: Event)
    ensures Run(s, [a, b, c, d]) == Apply(Apply(Apply(Apply(s, a), b), c), d)
  {
    assert [a, b, c, d][..3] == [a, b, c] && [a, b, c][..2] == [a, b] && [a, b][..1] == [a] && [a][..0] == [];
    assert Run(s, [a]) == Apply(s, a);
    assert Run(s, [a, b]) == Apply(Apply(s, a), b);
    assert Run(s, [a, b, c]) == Apply(Apply(Apply(s, a), b), c);
  }

  /** After a resolved or aborted probe the ceiling rests for the cooldown, and not longer once it is observed. */
  lemma CooldownRests(s: State, e: Event)
    requires Inv(s) && s.phase.Backoff? && e.Observing?
    ensures var after := Apply(s, e);
            && after.safe == s.safe && after.effective == s.safe
            && (after.phase.Cruise? <==> !e.o.bufferbloat && Elapsed(e.now, s.since) >= e.policy.cooldown)
            && (after.phase.Backoff? <==> !after.phase.Cruise?)
  {}

  /** A probe that loses its load for longer than the grace, or ramps too long, is given up without a verdict. */
  lemma StalledProbeIsAborted(s: State, e: Event)
    requires Inv(s) && Probing(s.phase) && Clean(e)
    ensures var after := Apply(s, e);
            var lost := !e.o.eligible
                        && (s.lastEligible.None? || Elapsed(e.now, s.lastEligible.value) > e.policy.eligibilityGrace);
            var late := s.phase.ProbeRamp? && !(e.o.eligible && e.o.shaperRate >= s.target.value * 0.98)
                        && Elapsed(e.now, s.since) >= e.policy.holdTime && Elapsed(e.now, s.since) >= 15_000
                        && Elapsed(e.now, s.since) >= 3 * e.policy.probeDuration;
            && (lost || late ==> after.phase.Backoff? && after.effective == after.safe == s.safe)
            && (s.phase.ProbeRamp? && !lost && !late ==> Probing(after.phase) && after.target == s.target)
            && after.failed == Expired(s, e.now, e.policy.failedBoundTtl).failed
  {}

  /** A reset forgets every raise and every failed bound; a pause or a gap forgets neither. */
  lemma ResetForgets(s: State, now: nat)
    requires Inv(s)
    ensures var after := Apply(s, Resetting(now));
            after.safe == after.effective == s.initialSafe && after.failed.None? && after.phase.Cruise?
    ensures var after := Apply(s, Pausing(now));
            after.safe == after.effective == s.safe && after.failed == s.failed && after.phase.Cruise?
    ensures var after := Apply(s, Gapping(now));
            && after.safe == s.safe && after.failed == s.failed && !Active(after.phase)
            && (Active(s.phase) ==> after.effective == s.safe && after.phase.Backoff?)
            && (!Active(s.phase) ==> after == s)
  {}
}
