/** The moving average kept by update_rate: what a sampling period measures, and the
    convergence when traffic is steady. */
module Average {
  import opened Throttle
  import opened Pacer
  import opened Edt
  import opened EdtRuns

  /** The average after k closed periods that all measured x. */
  function Settled(rate: nat, x: nat, k: nat): nat {
    if k == 0 then rate else Ema(Settled(rate, x, k - 1), x)
  }

  function Pow(b: nat, k: nat): nat {
    if k == 0 then 1 else b * Pow(b, k - 1)
  }

  /** The average moves towards the sample and never past it; it stands still
      exactly in the band of eight values that end at the sample. */
  lemma EmaStep(rate: nat, x: nat)
    ensures Min(rate, x) <= Ema(rate, x) <= Max(rate, x)
    ensures Ema(rate, x) == rate <==> x - 7 <= rate <= x
    ensures rate > x ==> x <= Ema(rate, x) < rate
    ensures rate < x - 7 ==> rate < Ema(rate, x) <= x
  {
  }

  /** Within |rate - x| periods the average has fallen to exactly x, or risen into
      the band [x - 7, x], and then stays. */
  lemma {:induction false} Converges(rate: nat, x: nat, k: nat)
    ensures Min(rate, x) <= Settled(rate, x, k) <= Max(rate, x)
    ensures rate >= x && k >= rate - x ==> Settled(rate, x, k) == x
    ensures rate <= x && k >= x - rate ==> x - 7 <= Settled(rate, x, k) <= x
    ensures rate >= x ==> x <= Settled(rate, x, k) <= Max(x, rate - k)
    ensures rate <= x ==> Min(x - 7, rate + k) <= Settled(rate, x, k) <= x
  {
    if k > 0 {
      Converges(rate, x, k - 1);
      EmaStep(Settled(rate, x, k - 1), x);
    }
  }

  /** Convergence is geometric: each period removes at least an eighth of the
      distance still to go, to x from above and to x - 7 from below. */
  lemma {:induction false} ConvergesGeometrically(rate: nat, x: nat, k: nat)
    ensures rate >= x ==>
      Pow(8, k) * (Settled(rate, x, k) - x) <= Pow(7, k) * (rate - x)
    ensures rate <= x - 7 ==>
      Pow(8, k) * (x - 7 - Settled(rate, x, k)) <= Pow(7, k) * (x - 7 - rate)
  {
    if k > 0 {
      ConvergesGeometrically(rate, x, k - 1);
      Converges(rate, x, k - 1);
      var last, next := Settled(rate, x, k - 1), Settled(rate, x, k);
      assert next == Ema(last, x);
      if rate >= x {
        Shrinks(Pow(8, k - 1), last - x, next - x);
        Rescale(Pow(7, k - 1), rate - x);
      }
      if rate <= x - 7 {
        Shrinks(Pow(8, k - 1), x - 7 - last, x - 7 - next);
        Rescale(Pow(7, k - 1), x - 7 - rate);
      }
    }
  }

  lemma Shrinks(p: nat, last: int, next: int)
    requires 8 * next <= 7 * last
    ensures 8 * p * next <= 7 * (p * last)
  {
    assert p * (8 * next) <= p * (7 * last);
  }

  lemma Rescale(p: nat, d: int)
    ensures 7 * p * d == 7 * (p * d)
  {
  }

  // ---------------------------------------------------------------------
  // From packets to the average
  // ---------------------------------------------------------------------

  function BytesOf(evs: seq<Event>): nat {
    if evs == [] then 0 else evs[0].pkt.len + BytesOf(evs[1..])
  }

  /** Packets of one sampling period that began at `start`: only the last finds that
      more than the interval has passed. */
  predicate OnePeriod(start: nat, evs: seq<Event>)
    decreases |evs|
  {
    evs != [] &&
    if |evs| == 1 then evs[0].tUpd > start + evs[0].cfg.interval
    else evs[0].tUpd <= start + evs[0].cfg.interval && OnePeriod(start, evs[1..])
  }

  function End(evs: seq<Event>): nat
    requires evs != []
  {
    evs[|evs| - 1].tUpd
  }

  /** So many bytes in so many nanoseconds are x bytes per second, rounded down. */
  predicate IsRate(x: nat, bytes: nat, elapsed: int) {
    elapsed > 0 && x * elapsed <= bytes * 1_000_000_000 < (x + 1) * elapsed
  }

  lemma QuotientIs(y: nat, d: nat, x: nat)
    requires d > 0 && x * d <= y < (x + 1) * d
    ensures y / d == x
  {
    var q := y / d;
    assert q * d <= y < (q + 1) * d;
    if q < x {
      ScaleUp(d, q + 1, x);
    } else if q > x {
      ScaleUp(d, x + 1, q);
    }
  }

  /** A packet that closes a period folds in the rate measured over it. */
  lemma ClosedPeriod(s: ThrottleStat, e: Event, x: nat)
    requires s.rate > 0 && e.tUpd > s.tStart + e.cfg.interval
    requires IsRate(x, s.txBytes + e.pkt.len, e.tUpd - s.tStart)
    ensures var n := Handle(s, e);
      n.rate == (7 * s.rate + x) / 8 && n.tStart == e.tUpd && n.txBytes == 0
  {
    QuotientIs((s.txBytes + e.pkt.len) * NSEC_PER_SEC, e.tUpd - s.tStart, x);
  }

  /** What a whole period measures is the bytes of all its packets, released or dropped,
      over the time it took; the average moves by an eighth of the way to that. */
  lemma {:induction false} PeriodMeasures(s: ThrottleStat, evs: seq<Event>, x: nat)
    requires s.rate > 0 && OnePeriod(s.tStart, evs)
    requires IsRate(x, s.txBytes + BytesOf(evs), End(evs) - s.tStart)
    ensures var n := EdtRuns.Run(s, evs);
      n.rate == (7 * s.rate + x) / 8 && n.tStart == End(evs) && n.txBytes == 0
    decreases |evs|
  {
    var e, n := evs[0], Handle(s, evs[0]);
    if |evs| == 1 {
      assert BytesOf(evs[1..]) == 0;
      ClosedPeriod(s, e, x);
      assert EdtRuns.Run(s, evs) == n;
    } else {
      assert n.rate == s.rate && n.tStart == s.tStart && n.txBytes == s.txBytes + e.pkt.len;
      assert End(evs[1..]) == End(evs);
      PeriodMeasures(n, evs[1..], x);
    }
  }

  function Joined(periods: seq<seq<Event>>): seq<Event> {
    if periods == [] then [] else periods[0] + Joined(periods[1..])
  }

  /** Steady traffic: every period carries x bytes per second. */
  predicate Steady(start: nat, periods: seq<seq<Event>>, x: nat)
    decreases |periods|
  {
    periods != [] ==>
      && OnePeriod(start, periods[0]) && IsRate(x, BytesOf(periods[0]), End(periods[0]) - start)
      && Steady(End(periods[0]), periods[1..], x)
  }

  lemma {:induction false} RunSplit(s: ThrottleStat, a: seq<Event>, b: seq<Event>)
    ensures EdtRuns.Run(s, a + b) == EdtRuns.Run(EdtRuns.Run(s, a), b)
    decreases |a|
  {
    if a == [] {
      assert a + b == b;
    } else {
      assert (a + b)[1..] == a[1..] + b;
      RunSplit(Handle(s, a[0]), a[1..], b);
    }
  }

  lemma {:induction false} SettledFromFront(rate: nat, x: nat, k: nat)
    ensures Settled((7 * rate + x) / 8, x, k) == Settled(rate, x, k + 1)
  {
    if k > 0 {
      SettledFromFront(rate, x, k - 1);
    }
  }

  /** Steady traffic of x bytes per second is measured as such: within |rate - x| periods
      the slot's average falls to exactly x or rises to within seven of it, and stays. */
  lemma {:induction false} SteadyTrafficMeasured(s: ThrottleStat, periods: seq<seq<Event>>, x: nat)
    requires s.rate > 0 && x > 0 && s.txBytes == 0 && Steady(s.tStart, periods, x)
    ensures var n, k := EdtRuns.Run(s, Joined(periods)).rate, |periods|;
      && n == Settled(s.rate, x, k) && n > 0
      && (s.rate >= x && k >= s.rate - x ==> n == x)
      && (s.rate <= x && k >= x - s.rate ==> x - 7 <= n <= x)
    decreases |periods|
  {
    Converges(s.rate, x, |periods|);
    if periods != [] {
      var n := EdtRuns.Run(s, periods[0]);
      PeriodMeasures(s, periods[0], x);
      EmaStep(s.rate, x);
      SteadyTrafficMeasured(n, periods[1..], x);
      RunSplit(s, periods[0], Joined(periods[1..]));
      SettledFromFront(s.rate, x, |periods| - 1);
    }
  }
}
