/** What holds over every interleaving of bwmcli settings and packets. */
module WatermarkRuns {
  import opened Throttle
  import opened Pacer
  import opened Watermark

  datatype Event = Control(cmd: Command) | Arrival(e: Traffic)

  predicate CfgOk(c: EdtThrottleCfg) {
    && LOWEST_BANDWIDTH <= c.lowRate <= c.highRate <= HIGHEST_BANDWIDTH
    && DEFAULT_WATERLINE <= c.waterLine <= HIGHEST_BANDWIDTH
    && c.interval > 0
  }

  predicate RateOk(t: EdtThrottle) {
    t.rate == 0 || LOWEST_BANDWIDTH <= t.rate <= HIGHEST_BANDWIDTH
  }

  /** Before InitCfgMap the entry is zero but for what the other settings wrote. */
  predicate Sane(c: EdtThrottleCfg) {
    if c.interval > 0 then CfgOk(c)
    else c.lowRate == c.highRate == 0 || LOWEST_BANDWIDTH <= c.lowRate <= c.highRate <= HIGHEST_BANDWIDTH
  }

  /** One event; the settings stay in range, and so does the rate. Once settings and
      rate are there the rate is never zero again, so throttle_init fires no more. */
  function Step(w: World, ev: Event): (n: World)
    ensures Sane(w.cfg) ==> Sane(n.cfg)
    ensures CfgOk(w.cfg) ==> CfgOk(n.cfg)
    ensures Sane(w.cfg) && RateOk(w.throttle) ==> RateOk(n.throttle)
    ensures CfgOk(w.cfg) && w.throttle.rate > 0 ==> n.throttle.rate > 0
    ensures ev.Arrival? ==> n.cfg == w.cfg && (CfgOk(w.cfg) ==> n.throttle.rate > 0)
    ensures ev.Control? ==> n.throttle == w.throttle
  {
    match ev
    case Control(cmd) => w.(cfg := Configure(w.cfg, cmd))
    case Arrival(e) => Handle(w, e)
  }

  function Run(w: World, evs: seq<Event>): (n: World)
    ensures Sane(w.cfg) ==> Sane(n.cfg)
    ensures CfgOk(w.cfg) ==> CfgOk(n.cfg)
    ensures Sane(w.cfg) && RateOk(w.throttle) ==> RateOk(n.throttle)
    ensures CfgOk(w.cfg) && w.throttle.rate > 0 ==> n.throttle.rate > 0
    decreases |evs|
  {
    if evs == [] then w else Run(Step(w, evs[0]), evs[1..])
  }

  /** The first packets may come before the settings: from zeroed maps, whatever
      happens before InitCfgMap, once a device is enabled all settings and traffic
      keep the configuration and the rate within the limits of the command line. */
  lemma SettingsStaySafe(before: seq<Event>, evs: seq<Event>)
    ensures var w := Step(Run(ZERO_WORLD, before), Control(InitCfg));
      && RateOk(Run(ZERO_WORLD, before).throttle) && CfgOk(w.cfg)
      && CfgOk(Run(w, evs).cfg) && RateOk(Run(w, evs).throttle)
      && ((exists ev :: ev in evs && ev.Arrival?) ==> Run(w, evs).throttle.rate >= LOWEST_BANDWIDTH)
  {
    var w := Step(Run(ZERO_WORLD, before), Control(InitCfg));
    if exists ev :: ev in evs && ev.Arrival? {
      RateSetByFirstPacket(w, evs);
    }
  }

  lemma {:induction false} RateSetByFirstPacket(w: World, evs: seq<Event>)
    requires CfgOk(w.cfg) && exists ev :: ev in evs && ev.Arrival?
    ensures Run(w, evs).throttle.rate > 0
    decreases |evs|
  {
    if !evs[0].Arrival? {
      RateSetByFirstPacket(Step(w, evs[0]), evs[1..]);
    }
  }

  // ---------------------------------------------------------------------
  // Pacing of offline traffic
  // ---------------------------------------------------------------------

  function Base(w: World): nat {
    if w.throttle.rate == 0 then 0 else w.throttle.tLast
  }

  function Outgoing(w: World, e: Traffic): seq<Sent> {
    var t := Admit(w);
    if !Offline(e) || Drops(t.tLast, e.pkt, e.tCur) then []
    else [Sent(e.pkt.len, SendTime(e.pkt.tstamp, e.tCur), t.rate, Delay(e.pkt.len, t.rate), Handle(w, e).throttle.tLast)]
  }

  /** The offline packets let through, with the departures they are given. */
  function Released(w: World, evs: seq<Event>): seq<Sent>
    decreases |evs|
  {
    if evs == [] then []
    else (if evs[0].Arrival? then Outgoing(w, evs[0].e) else []) + Released(Step(w, evs[0]), evs[1..])
  }

  lemma OnePaced(w: World, e: Traffic)
    ensures Paced(Base(w), Outgoing(w, e))
    ensures Before(Base(w), Outgoing(w, e), |Outgoing(w, e)|) == Handle(w, e).throttle.tLast
  {
  }

  /** Offline departures form one schedule over the whole run, whatever settings
      are changed meanwhile and however often the rate is switched. */
  lemma {:induction false} RunIsPaced(w: World, evs: seq<Event>)
    requires CfgOk(w.cfg)
    ensures Paced(Base(w), Released(w, evs))
    decreases |evs|
  {
    if evs != [] {
      var w' := Step(w, evs[0]);
      RunIsPaced(w', evs[1..]);
      if evs[0].Arrival? {
        OnePaced(w, evs[0].e);
        PacedAppend(Base(w), Outgoing(w, evs[0].e), Released(w', evs[1..]));
      } else {
        assert Released(w, evs) == Released(w', evs[1..]);
      }
    }
  }

  /** No high rate in force during the run, nor the rate it starts with, exceeds r. */
  ghost predicate Capped(w: World, evs: seq<Event>, r: nat)
    decreases |evs|
  {
    w.cfg.highRate <= r && w.throttle.rate <= r && (evs != [] ==> Capped(Step(w, evs[0]), evs[1..], r))
  }

  lemma {:induction false} RunIsRated(w: World, evs: seq<Event>, r: nat)
    requires CfgOk(w.cfg) && Capped(w, evs, r)
    ensures RatedBelow(Released(w, evs), r)
    decreases |evs|
  {
    if evs != [] {
      RunIsRated(Step(w, evs[0]), evs[1..], r);
      if evs[0].Arrival? && Outgoing(w, evs[0].e) != [] {
        DelayIsRated(Outgoing(w, evs[0].e)[0], r);
      }
    }
  }

  /** Between any two departures of a run the offline bytes keep to the highest
      high rate that was in force. */
  lemma OfflinePacingBound(w: World, evs: seq<Event>, r: nat, i: nat, j: nat)
    requires CfgOk(w.cfg) && Capped(w, evs, r) && i <= j <= |Released(w, evs)|
    ensures var a := Released(w, evs);
      && Before(Base(w), a, i) <= Before(Base(w), a, j)
      && Within(r, Bytes(a[i..j]), Before(Base(w), a, i), Before(Base(w), a, j), j - i)
  {
    RunIsPaced(w, evs);
    RunIsRated(w, evs, r);
    PacingBoundBetween(Base(w), Released(w, evs), r, i, j);
  }

  /** Whatever is configured, the largest rate the command line admits is a cap. */
  lemma {:induction false} AlwaysCapped(w: World, evs: seq<Event>)
    requires CfgOk(w.cfg) && RateOk(w.throttle)
    ensures Capped(w, evs, HIGHEST_BANDWIDTH)
    decreases |evs|
  {
    if evs != [] {
      AlwaysCapped(Step(w, evs[0]), evs[1..]);
    }
  }

  // ---------------------------------------------------------------------
  // Watermark feedback
  // ---------------------------------------------------------------------

  /** A sampling period: its online bytes and its length. */
  datatype Period = Period(bytes: nat, past: nat)

  function Closed(w: World, ev: Event): (ps: seq<Period>)
    ensures forall p :: p in ps ==> p.past > 0
  {
    if ev.Arrival? && Closes(w.cfg, Counted(w, ev.e), ev.e.tAdj)
    then [Period(Counted(w, ev.e).onlineTxBytes, ev.e.tAdj - Counted(w, ev.e).tStart)]
    else []
  }

  function Periods(w: World, evs: seq<Event>): (ps: seq<Period>)
    ensures forall p :: p in ps ==> p.past > 0
    decreases |evs|
  {
    if evs == [] then [] else Closed(w, evs[0]) + Periods(Step(w, evs[0]), evs[1..])
  }

  function PeriodBytes(ps: seq<Period>): nat {
    if ps == [] then 0 else ps[0].bytes + PeriodBytes(ps[1..])
  }

  /** Online bytes, counted from the packets alone. */
  function OnlineBytes(evs: seq<Event>): nat {
    if evs == [] then 0
    else (if evs[0].Arrival? && !Offline(evs[0].e) then evs[0].e.pkt.len else 0) + OnlineBytes(evs[1..])
  }

  lemma StepCounts(w: World, ev: Event)
    ensures var n := Step(w, ev).throttle;
      && PeriodBytes(Closed(w, ev)) + n.onlineTxBytes
         == w.throttle.onlineTxBytes + OnlineBytes([ev])
      && n.stats.checkTimes == w.throttle.stats.checkTimes + |Closed(w, ev)|
      && n.stats.lowTimes + n.stats.highTimes - n.stats.checkTimes
         == w.throttle.stats.lowTimes + w.throttle.stats.highTimes - w.throttle.stats.checkTimes
  {
  }

  lemma {:induction false} PeriodBytesAdd(a: seq<Period>, b: seq<Period>)
    ensures PeriodBytes(a + b) == PeriodBytes(a) + PeriodBytes(b)
  {
    if a == [] {
      assert a + b == b;
    } else {
      PeriodBytesAdd(a[1..], b);
      assert (a + b)[1..] == a[1..] + b;
    }
  }

  /** Every online byte is in exactly one closed period or still in the counter, and
      each closed period was judged low or high exactly once. */
  lemma {:induction false} FeedbackAccounts(w: World, evs: seq<Event>)
    ensures var n := Run(w, evs).throttle;
      && PeriodBytes(Periods(w, evs)) + n.onlineTxBytes == w.throttle.onlineTxBytes + OnlineBytes(evs)
      && n.stats.checkTimes == w.throttle.stats.checkTimes + |Periods(w, evs)|
      && n.stats.lowTimes + n.stats.highTimes - n.stats.checkTimes
         == w.throttle.stats.lowTimes + w.throttle.stats.highTimes - w.throttle.stats.checkTimes
    decreases |evs|
  {
    if evs != [] {
      var w' := Step(w, evs[0]);
      StepCounts(w, evs[0]);
      FeedbackAccounts(w', evs[1..]);
      PeriodBytesAdd(Closed(w, evs[0]), Periods(w', evs[1..]));
      assert OnlineBytes([evs[0]]) + OnlineBytes(evs[1..]) == OnlineBytes(evs) by {
        assert [evs[0]][1..] == [];
      }
    }
  }

  /** The rate that a history of periods calls for. */
  function Chosen(cfg: EdtThrottleCfg, ps: seq<Period>): nat
    requires forall p :: p in ps ==> p.past > 0
  {
    if ps == [] || PastRate(ps[|ps| - 1].bytes, ps[|ps| - 1].past) >= cfg.waterLine then cfg.lowRate else cfg.highRate
  }

  /** With settings left alone, the rate at which the next packet is paced is decided
      by the last closed period alone: low when online traffic then reached the
      water line, or when no period has closed yet. */
  lemma {:induction false} RateFollowsWatermark(w: World, evs: seq<Event>, past: seq<Period>)
    requires CfgOk(w.cfg) && forall ev :: ev in evs ==> ev.Arrival?
    requires forall p :: p in past ==> p.past > 0
    requires Admit(w).rate == Chosen(w.cfg, past)
    ensures Run(w, evs).cfg == w.cfg
    ensures Admit(Run(w, evs)).rate == Chosen(w.cfg, past + Periods(w, evs))
    decreases |evs|
  {
    if evs == [] {
      assert past + [] == past;
    } else {
      var now := past + Closed(w, evs[0]);
      RateFollowsWatermark(Step(w, evs[0]), evs[1..], now);
      assert past + Periods(w, evs) == now + Periods(Step(w, evs[0]), evs[1..]);
    }
  }

  /** The same from the state in which a device is enabled, as an equivalence. */
  lemma PacedLowExactly(w: World, evs: seq<Event>)
    requires CfgOk(w.cfg) && w.throttle.rate == 0 && w.cfg.lowRate != w.cfg.highRate
    requires forall ev :: ev in evs ==> ev.Arrival?
    ensures var ps := Periods(w, evs);
      Admit(Run(w, evs)).rate == w.cfg.lowRate <==>
        (ps == [] || PastRate(ps[|ps| - 1].bytes, ps[|ps| - 1].past) >= w.cfg.waterLine)
  {
    RateFollowsWatermark(w, evs, []);
    assert [] + Periods(w, evs) == Periods(w, evs);
  }

  // ---------------------------------------------------------------------
  // One step in plain numbers
  // ---------------------------------------------------------------------

  /** Offline are the packets whose SO_PRIORITY and class id add up to 2^32 - 1. */
  lemma OfflineExactly(e: Traffic)
    ensures Offline(e) <==> e.prio + e.classid == 4294967295
  {
  }

  /** What bwmcli accepts takes effect, and nothing else does. */
  lemma SettingsExactly(w: World, low: int, high: int, line: int)
    ensures var n := Step(w, Control(SetBandwidth(Some((low, high)))));
      if 1048576 <= low <= high <= 9999 * 1073741824 then n == w.(cfg := w.cfg.(lowRate := low, highRate := high))
      else n == w
    ensures var n := Step(w, Control(SetWaterline(Some(line))));
      if 20 * 1048576 <= line <= 9999 * 1073741824 then n == w.(cfg := w.cfg.(waterLine := line))
      else n == w
    ensures var n := Step(w, Control(InitCfg));
      if w.cfg.interval == 0 then n == w.(cfg := EdtThrottleCfg(20971520, 10000000, 20971520, 1073741824))
      else n == w
  {
  }

  /** So many bytes in so many nanoseconds are x bytes per second, rounded down. */
  predicate IsRate(x: nat, bytes: nat, elapsed: int) {
    elapsed > 0 && x * elapsed <= bytes * 1_000_000_000 < (x + 1) * elapsed
  }

  lemma PastRateIs(bytes: nat, past: nat, x: nat)
    requires past > 0 && IsRate(x, bytes, past)
    ensures PastRate(bytes, past) == x
  {
    var y := bytes * NSEC_PER_SEC;
    var q := y / past;
    assert past * q <= y < past * (q + 1);
    if q < x {
      ScaleUp(past, q + 1, x);
    } else if q > x {
      ScaleUp(past, x + 1, q);
    }
  }

  /** A packet that finds the interval exceeded closes the period: with x and y what
      online and offline traffic then measure, both are recorded, x decides the rate,
      and a new period begins. Any other leaves rate and period as they are. */
  lemma ClosedPeriod(w: World, e: Traffic, x: nat, y: nat)
    requires w.throttle.rate > 0
    ensures var t, n := w.throttle, Handle(w, e).throttle;
      var online := t.onlineTxBytes + if Offline(e) then 0 else e.pkt.len;
      var offline := t.txBytes + if Offline(e) then e.pkt.len else 0;
      if e.tAdj > t.tStart + w.cfg.interval then
        IsRate(x, online, e.tAdj - t.tStart) && IsRate(y, offline, e.tAdj - t.tStart) ==>
          && n.rate == (if x >= w.cfg.waterLine then w.cfg.lowRate else w.cfg.highRate)
          && n.tStart == e.tAdj && n.onlineTxBytes == 0 && n.txBytes == 0
          && n.stats.ratePast == x && n.stats.offlineRatePast == y
          && n.stats.checkTimes == t.stats.checkTimes + 1
          && n.stats.lowTimes == t.stats.lowTimes + (if x >= w.cfg.waterLine then 1 else 0)
      else
        n.rate == t.rate && n.tStart == t.tStart && n.onlineTxBytes == online && n.txBytes == offline
  {
    var c := Counted(w, e);
    if e.tAdj > w.throttle.tStart + w.cfg.interval {
      var past := e.tAdj - w.throttle.tStart;
      if IsRate(x, c.onlineTxBytes, past) && IsRate(y, c.txBytes, past) {
        PastRateIs(c.onlineTxBytes, past, x);
        PastRateIs(c.txBytes, past, y);
      }
    }
  }

  function PacketsOf(evs: seq<Event>, offline: bool): nat {
    if evs == [] then 0
    else (if evs[0].Arrival? && Offline(evs[0].e) == offline then 1 else 0) + PacketsOf(evs[1..], offline)
  }

  /** Every packet is counted once, as online or as offline. */
  lemma {:induction false} PacketsAccounted(w: World, evs: seq<Event>)
    ensures var n := Run(w, evs).throttle.stats;
      && n.onlinePkts == w.throttle.stats.onlinePkts + PacketsOf(evs, false)
      && n.offlinePkts == w.throttle.stats.offlinePkts + PacketsOf(evs, true)
    decreases |evs|
  {
    if evs != [] {
      PacketsAccounted(Step(w, evs[0]), evs[1..]);
    }
  }

  /** An offline packet of a socket other than TCP is dropped while the throttle is booked
      more than ten seconds ahead. Any other, with d its transmission time, leaves at its
      own timestamp, now, or d after its predecessor, whichever is last. */
  lemma OfflineDepartureExactly(w: World, e: Traffic, d: nat)
    requires w.throttle.rate > 0 && Offline(e)
    requires w.throttle.rate * d <= e.pkt.len * 1_000_000_000 < w.throttle.rate * (d + 1)
    ensures var last, t := w.throttle.tLast, Handle(w, e).throttle.tLast;
      if e.pkt.sock && !e.pkt.tcp && last > e.tCur + 10_000_000_000 then t == last && Outgoing(w, e) == []
      else
        && |Outgoing(w, e)| == 1 && t >= e.pkt.tstamp && t >= e.tCur && t >= last + d
        && (t == e.pkt.tstamp || t == e.tCur || t == last + d)
  {
    DelayIs(e.pkt.len, w.throttle.rate, d);
  }
}
