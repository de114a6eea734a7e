/**
  * History averages from byte counters: a window runs from one finish to the
  * next and never across a counter reset. Times are natural nanoseconds, rates
  * real kbit/s.
  */
module TrafficWindow {
  import opened Selection

  datatype Observation = Observation(at: nat, rx: nat, tx: nat)

  datatype Summary = Summary(averageDown: real, averageUp: real, peakDown: real, peakUp: real, seconds: real)

  function Seconds(from: nat, to: nat): (r: real)
    requires from < to
    ensures r > 0.0
  {
    (to - from) as real / 1_000_000_000.0
  }

  /** kbit/s of a number of bytes over a time. */
  function Rate(bytes: nat, seconds: real): real
    requires seconds > 0.0
  {
    bytes as real * 0.008 / seconds
  }

  /** Fresh observations of one counter life: time advances, counters never fall. */
  predicate Run(span: seq<Observation>) {
    && span != []
    && forall i, j :: 0 <= i < j < |span| ==>
         span[i].at < span[j].at && span[i].rx <= span[j].rx && span[i].tx <= span[j].tx
  }

  function Bytes(o: Observation, down: bool): nat { if down then o.rx else o.tx }

  type Meter = (Observation, Observation) -> real

  /** The rate between two observations of one counter life. */
  function RateMeter(down: bool): Meter {
    (a: Observation, b: Observation) =>
      if a.at < b.at && Bytes(a, down) <= Bytes(b, down)
      then Rate(Bytes(b, down) - Bytes(a, down), Seconds(a.at, b.at)) else 0.0
  }

  /** The highest rate between neighbours. */
  function Peak(meter: Meter, span: seq<Observation>): (r: real)
    requires span != []
    ensures r >= 0.0
  {
    if |span| == 1 then 0.0
    else MaxReal(Peak(meter, span[..|span| - 1]), meter(span[|span| - 2], span[|span| - 1]))
  }

  /** A steady rate `r` carries at least the bytes seen between two observations. */
  predicate Carries(r: real, a: Observation, b: Observation, down: bool) {
    a.at <= b.at && (Bytes(b, down) - Bytes(a, down)) as real * 0.008 <= r * ((b.at - a.at) as real / 1_000_000_000.0)
  }

  lemma CarriesMore(r: real, more: real, a: Observation, b: Observation, down: bool)
    requires Carries(r, a, b, down) && more >= r
    ensures Carries(more, a, b, down)
  {
    var seconds := (b.at - a.at) as real / 1_000_000_000.0;
    assert (more - r) * seconds >= 0.0;
  }

  lemma CarriesOn(r: real, a: Observation, b: Observation, c: Observation, down: bool)
    requires Carries(r, a, b, down) && Carries(r, b, c, down)
    ensures Carries(r, a, c, down)
  {
    var first, second := (b.at - a.at) as real / 1_000_000_000.0, (c.at - b.at) as real / 1_000_000_000.0;
    assert (c.at - a.at) as real / 1_000_000_000.0 == first + second;
    assert r * (first + second) == r * first + r * second;
  }

  lemma MeterCarries(a: Observation, b: Observation, down: bool)
    requires a.at < b.at && Bytes(a, down) <= Bytes(b, down)
    ensures Carries(RateMeter(down)(a, b), a, b, down)
  {
    RateTimesSeconds(Bytes(b, down) - Bytes(a, down), Seconds(a.at, b.at));
  }

  lemma RateTimesSeconds(bytes: nat, seconds: real)
    requires seconds > 0.0
    ensures Rate(bytes, seconds) * seconds == bytes as real * 0.008
  {}

  ghost predicate CarriesNeighbours(meter: Meter, down: bool) {
    forall a: Observation, b: Observation {:trigger meter(a, b)} ::
      a.at < b.at && Bytes(a, down) <= Bytes(b, down) ==> Carries(meter(a, b), a, b, down)
  }

  /** The peak carries the whole run. */
  lemma {:induction false} PeakCarries(meter: Meter, span: seq<Observation>, down: bool)
    requires Run(span) && CarriesNeighbours(meter, down)
    ensures Carries(Peak(meter, span), span[0], span[|span| - 1], down)
  {
    if |span| > 1 {
      var init := span[..|span| - 1];
      PeakCarries(meter, init, down);
      var first, before, last := span[0], span[|span| - 2], span[|span| - 1];
      var peak := Peak(meter, span);
      CarriesMore(Peak(meter, init), peak, first, before, down);
      assert Carries(meter(before, last), before, last, down);
      CarriesMore(meter(before, last), peak, before, last, down);
      CarriesOn(peak, first, before, last, down);
    }
  }

  lemma Divide(amount: real, r: real, seconds: real)
    requires seconds > 0.0 && amount <= r * seconds
    ensures amount / seconds <= r
  {}

  /** The meter gives the smallest rate that carries what was seen. */
  lemma MeterIsLeast(a: Observation, b: Observation, down: bool, r: real)
    requires a.at < b.at && Bytes(a, down) <= Bytes(b, down) && Carries(r, a, b, down)
    ensures RateMeter(down)(a, b) <= r
  {
    Divide((Bytes(b, down) - Bytes(a, down)) as real * 0.008, r, Seconds(a.at, b.at));
  }

  lemma MeterCarriesNeighbours(down: bool)
    ensures CarriesNeighbours(RateMeter(down), down)
  {
    forall a: Observation, b: Observation | a.at < b.at && Bytes(a, down) <= Bytes(b, down)
      ensures Carries(RateMeter(down)(a, b), a, b, down)
    {
      MeterCarries(a, b, down);
    }
  }

  /** The peak is never below the time-weighted average. */
  lemma PeakCoversAverage(span: seq<Observation>, down: bool)
    requires Run(span) && |span| > 1
    ensures Peak(RateMeter(down), span) >= RateMeter(down)(span[0], span[|span| - 1])
  {
    MeterCarriesNeighbours(down);
    PeakCarries(RateMeter(down), span, down);
    MeterIsLeast(span[0], span[|span| - 1], down, Peak(RateMeter(down), span));
  }

  /** Averages from the first to the last observation, peaks between neighbours. */
  function SummaryOf(span: seq<Observation>, down: Meter, up: Meter): Summary
    requires |span| > 1 && span[0].at < span[|span| - 1].at
  {
    var first, last := span[0], span[|span| - 1];
    Summary(down(first, last), up(first, last), Peak(down, span), Peak(up, span), Seconds(first.at, last.at))
  }

  /** The run and its two peaks. */
  ghost predicate Describes(span: seq<Observation>, peakDown: real, peakUp: real, down: Meter, up: Meter) {
    Run(span) && peakDown == Peak(down, span) && peakUp == Peak(up, span)
  }

  lemma DescribesOne(o: Observation, down: Meter, up: Meter)
    ensures Describes([o], 0.0, 0.0, down, up)
  {}

  lemma DescribesMore(span: seq<Observation>, peakDown: real, peakUp: real, down: Meter, up: Meter, o: Observation)
    requires Describes(span, peakDown, peakUp, down, up)
    requires var last := span[|span| - 1]; last.at < o.at && last.rx <= o.rx && last.tx <= o.tx
    ensures var last := span[|span| - 1];
            Describes(span + [o], MaxReal(peakDown, down(last, o)), MaxReal(peakUp, up(last, o)), down, up)
  {
    var longer := span + [o];
    assert longer[..|longer| - 1] == span && longer[|longer| - 2] == span[|span| - 1] && longer[|longer| - 1] == o;
    forall i, j | 0 <= i < j < |longer|
      ensures longer[i].at < longer[j].at && longer[i].rx <= longer[j].rx && longer[i].tx <= longer[j].tx
    {
      if j == |span| && i < |span| - 1 {
        assert span[i].at < span[|span| - 1].at;
      }
    }
  }

  /** The highest rate between neighbours is one of them, and none is higher. */
  lemma {:induction false} PeakIsHighest(meter: Meter, span: seq<Observation>, i: nat) returns (k: nat)
    requires i + 1 < |span|
    ensures Peak(meter, span) >= meter(span[i], span[i + 1])
    ensures k + 1 < |span| && (Peak(meter, span) == meter(span[k], span[k + 1]) || Peak(meter, span) == 0.0)
    decreases |span|
  {
    var init, n := span[..|span| - 1], |span|;
    k := n - 2;
    if n > 2 {
      var j := PeakIsHighest(meter, init, if i + 2 < n then i else 0);
      if Peak(meter, init) > meter(span[n - 2], span[n - 1]) { k := j; }
    }
  }

  /** Eight bits per byte, a thousand bits per kilobit: averages are bytes over the whole time, both ways. */
  lemma SummaryMeans(span: seq<Observation>)
    requires Run(span) && |span| > 1
    ensures var first, last := span[0], span[|span| - 1];
            var s := SummaryOf(span, RateMeter(true), RateMeter(false));
            && s.seconds * 1_000_000_000.0 == (last.at - first.at) as real
            && s.averageDown * s.seconds * 1000.0 == (last.rx - first.rx) as real * 8.0
            && s.averageUp * s.seconds * 1000.0 == (last.tx - first.tx) as real * 8.0
  {
    var first, last := span[0], span[|span| - 1];
    RateTimesSeconds(last.rx - first.rx, Seconds(first.at, last.at));
    RateTimesSeconds(last.tx - first.tx, Seconds(first.at, last.at));
  }

  class Window {
    var first: Option<Observation>
    var last: Option<Observation>
    var peakDown: real
    var peakUp: real
    /**
      * The observations of this window, the first one since the last reset, and the bytes of the windows
      * finished since.
      */
    ghost var span: seq<Observation>
    ghost var origin: Option<Observation>
    ghost var finishedRx: nat
    ghost var finishedTx: nat

    ghost predicate Valid()
      reads this
    {
      && first.Some? == last.Some? == origin.Some? == (span != [])
      && (first.None? ==> peakDown == 0.0 && peakUp == 0.0 && finishedRx == 0 && finishedTx == 0)
      && (first.Some? ==>
            && first.value == span[0] && last.value == span[|span| - 1]
            && Describes(span, peakDown, peakUp, RateMeter(true), RateMeter(false))
            && origin.value.rx + finishedRx == first.value.rx && origin.value.tx + finishedTx == first.value.tx)
    }

    constructor ()
      ensures Valid() && first.None?
    {
      first, last, peakDown, peakUp := None, None, 0.0, 0.0;
      span, origin, finishedRx, finishedTx := [], None, 0, 0;
    }

    /** A stale time is ignored, a falling counter starts over, anything else extends the window. */
    method Observe(at: nat, rx: nat, tx: nat)
      requires Valid()
      modifies this
      ensures Valid()
      ensures var o := Observation(at, rx, tx);
              if old(last).Some? && at <= old(last).value.at then
                span == old(span) && origin == old(origin) && finishedRx == old(finishedRx)
                && finishedTx == old(finishedTx)
              else if old(last).Some? && (rx < old(last).value.rx || tx < old(last).value.tx) then
                span == [o] && origin == Some(o) && finishedRx == 0 && finishedTx == 0
              else
                && span == old(span) + [o] && finishedRx == old(finishedRx) && finishedTx == old(finishedTx)
                && origin == (if old(origin).Some? then old(origin) else Some(o))
    {
      var current := Observation(at, rx, tx);
      if last.Some? && at <= last.value.at {
        return;
      }
      if last.Some? && rx >= last.value.rx && tx >= last.value.tx {
        Extend(current);
        return;
      }
      first, last, peakDown, peakUp := Some(current), Some(current), 0.0, 0.0;
      span, origin, finishedRx, finishedTx := [current], Some(current), 0, 0;
      DescribesOne(current, RateMeter(true), RateMeter(false));
    }

    method Extend(current: Observation)
      requires Valid() && last.Some?
      requires last.value.at < current.at && last.value.rx <= current.rx && last.value.tx <= current.tx
      modifies this`last, this`peakDown, this`peakUp, this`span
      ensures Valid() && span == old(span) + [current]
    {
      DescribesMore(span, peakDown, peakUp, RateMeter(true), RateMeter(false), current);
      peakDown := MaxReal(peakDown, RateMeter(true)(last.value, current));
      peakUp := MaxReal(peakUp, RateMeter(false)(last.value, current));
      last := Some(current);
      span := span + [current];
    }

    /**
      * Closing a window: its summary is that of the observations since the last
      * finish or reset, its peak is at least its average both ways, and with the
      * windows before it its bytes add up to the counter difference since the last reset.
      */
    method Finish() returns (r: Option<Summary>)
      requires Valid()
      modifies this
      ensures Valid() && last == old(last) && origin == old(origin)
      ensures r.None? <==> |old(span)| <= 1
      ensures r.None? ==> span == old(span) && finishedRx == old(finishedRx) && finishedTx == old(finishedTx)
      ensures r.Some? ==>
                var s := old(span);
                && s[0].at < s[|s| - 1].at && r.value == SummaryOf(s, RateMeter(true), RateMeter(false))
                && r.value.peakDown >= r.value.averageDown && r.value.peakUp >= r.value.averageUp
                && span == [s[|s| - 1]]
                && finishedRx == old(finishedRx) + (s[|s| - 1].rx - s[0].rx)
                && finishedTx == old(finishedTx) + (s[|s| - 1].tx - s[0].tx)
                && origin.value.rx + finishedRx == last.value.rx && origin.value.tx + finishedTx == last.value.tx
    {
      if first.None? || last.None? || last.value.at <= first.value.at {
        return None;
      }
      PeakCoversAverage(span, true);
      PeakCoversAverage(span, false);
      r := Some(Summary(RateMeter(true)(first.value, last.value), RateMeter(false)(first.value, last.value),
                        peakDown, peakUp, Seconds(first.value.at, last.value.at)));
      Restart();
    }

    /** The last observation opens the next window. */
    method Restart()
      requires Valid() && first.Some? && first.value.at < last.value.at
      modifies this`first, this`peakDown, this`peakUp, this`span, this`finishedRx, this`finishedTx
      ensures Valid() && span == [old(last).value]
      ensures finishedRx == old(finishedRx) + (old(last).value.rx - old(first).value.rx)
      ensures finishedTx == old(finishedTx) + (old(last).value.tx - old(first).value.tx)
    {
      assert span[0].rx <= span[|span| - 1].rx && span[0].tx <= span[|span| - 1].tx;
      finishedRx := finishedRx + (last.value.rx - first.value.rx);
      finishedTx := finishedTx + (last.value.tx - first.value.tx);
      first := last;
      span := [last.value];
      peakDown := 0.0;
      peakUp := 0.0;
      DescribesOne(last.value, RateMeter(true), RateMeter(false));
    }
  }
}
