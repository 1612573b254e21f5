/** Online/offline bandwidth control: the packet path of bwm_tc.c and the settings
    that bwmcli.c writes, interleaved on the two maps they share. */
module Watermark {
  import opened Throttle
  import opened Pacer

  const DEFAULT_LOW_BANDWIDTH: nat := 20 * 1024 * 1024
  const DEFAULT_HIGH_BANDWIDTH: nat := 1024 * 1024 * 1024
  const DEFAULT_WATERLINE: nat := 20 * 1024 * 1024
  const LOWEST_BANDWIDTH: nat := 1024 * 1024
  const HIGHEST_BANDWIDTH: nat := 9999 * 1024 * 1024 * 1024
  const DEFAULT_INTERVAL: nat := 10_000_000
  const OFFLINE_PRIO: nat := 0xffff_ffff
  const LLONG_MAX: int := 0x7fff_ffff_ffff_ffff

  datatype EdtThrottleCfg = EdtThrottleCfg(waterLine: nat, interval: nat, lowRate: nat, highRate: nat)

  datatype ThrottleStats = ThrottleStats(
    checkTimes: nat, highTimes: nat, lowTimes: nat, onlinePkts: nat, offlinePkts: nat,
    ratePast: nat, offlineRatePast: nat)

  datatype EdtThrottle = EdtThrottle(
    tLast: nat, rate: nat, txBytes: nat, onlineTxBytes: nat, tStart: nat, stats: ThrottleStats)

  /** The single entries of throttle_cfg and throttle_map. */
  datatype World = World(cfg: EdtThrottleCfg, throttle: EdtThrottle)

  const ZERO_WORLD := World(EdtThrottleCfg(0, 0, 0, 0), EdtThrottle(0, 0, 0, 0, 0, ThrottleStats(0, 0, 0, 0, 0, 0, 0)))

  /** A packet with its SO_PRIORITY and cgroup class id, and the clock readings of
      bwm_offline and adjust_rate. */
  datatype Traffic = Traffic(pkt: Packet, prio: uint32, classid: uint32, tCur: nat, tAdj: nat)

  /** The two are added in 32 bits. */
  predicate Offline(e: Traffic) {
    (e.prio + e.classid) % 0x1_0000_0000 == OFFLINE_PRIO
  }

  // ---------------------------------------------------------------------
  // The packet path
  // ---------------------------------------------------------------------

  function Initialised(cfg: EdtThrottleCfg, t: EdtThrottle): EdtThrottle {
    t.(tLast := 0, rate := cfg.lowRate, txBytes := 0, tStart := 0)
  }

  function Admit(w: World): EdtThrottle {
    if w.throttle.rate == 0 then Initialised(w.cfg, w.throttle) else w.throttle
  }

  function CountedOnline(t: EdtThrottle, len: nat): EdtThrottle {
    t.(onlineTxBytes := t.onlineTxBytes + len, stats := t.stats.(onlinePkts := t.stats.onlinePkts + 1))
  }

  function CountedOffline(t: EdtThrottle, p: Packet, now: nat): EdtThrottle {
    t.(txBytes := t.txBytes + p.len, stats := t.stats.(offlinePkts := t.stats.offlinePkts + 1),
       tLast := if Drops(t.tLast, p, now) then t.tLast else Departure(t.tLast, p, now, t.rate))
  }

  predicate Closes(cfg: EdtThrottleCfg, t: EdtThrottle, now: nat) {
    now - t.tStart > cfg.interval
  }

  function PastRate(bytes: nat, past: nat): nat
    requires past > 0
  {
    bytes * NSEC_PER_SEC / past
  }

  function Adjusted(cfg: EdtThrottleCfg, t: EdtThrottle, now: nat): EdtThrottle {
    if !Closes(cfg, t, now) then t else
    var ratePast := PastRate(t.onlineTxBytes, now - t.tStart);
    var low := ratePast >= cfg.waterLine;
    t.(tStart := now, rate := if low then cfg.lowRate else cfg.highRate, onlineTxBytes := 0, txBytes := 0,
       stats := t.stats.(
         lowTimes := t.stats.lowTimes + (if low then 1 else 0),
         highTimes := t.stats.highTimes + (if low then 0 else 1),
         checkTimes := t.stats.checkTimes + 1,
         ratePast := ratePast,
         offlineRatePast := PastRate(t.txBytes, now - t.tStart)))
  }

  function Counted(w: World, e: Traffic): EdtThrottle {
    if Offline(e) then CountedOffline(Admit(w), e.pkt, e.tCur) else CountedOnline(Admit(w), e.pkt.len)
  }

  function Handle(w: World, e: Traffic): World {
    w.(throttle := Adjusted(w.cfg, Counted(w, e), e.tAdj))
  }

  // ---------------------------------------------------------------------
  // The command line
  // ---------------------------------------------------------------------

  datatype Unit = NoUnit | KB | MB | GB | BadUnit

  function UnitBytes(u: Unit): int {
    match u
    case NoUnit => 1 case KB => 1024 case MB => 1024 * 1024 case GB => 1024 * 1024 * 1024 case BadUnit => -1
  }

  type llong = x: int | -LLONG_MAX - 1 <= x <= LLONG_MAX

  /** `tmp` and `unit` are what strtol and the suffix table yield. A bandwidth needs
      a unit, and the product is formed only when it cannot overflow. */
  method ParseUnit(tmp: llong, unit: Unit, setPrio: bool) returns (val: Option<llong>)
    ensures unit != NoUnit ==>
      (val.Some? <==> unit != BadUnit && tmp >= -1 && tmp * UnitBytes(unit) <= LLONG_MAX)
    ensures unit == NoUnit ==> (val.Some? <==> setPrio)
    ensures val.Some? ==> val.value == tmp * UnitBytes(unit)
    ensures val.Some? ==> match unit
      case KB => val.value == 1024 * tmp case MB => val.value == 1048576 * tmp
      case GB => val.value == 1073741824 * tmp case _ => val.value == tmp
  {
    if unit != NoUnit {
      var bytes := UnitBytes(unit);
      if bytes <= 0 {
        return None;
      }
      if tmp > LLONG_MAX / bytes || tmp < -1 {
        return None;
      }
      return Some(tmp * bytes);
    } else if !setPrio {
      return None;
    }
    return Some(tmp);
  }

  /** Settings take the parsed numbers, None where parsing failed. */
  datatype Command = InitCfg | SetBandwidth(args: Option<(int, int)>) | SetWaterline(arg: Option<int>)

  predicate AcceptsBandwidth(low: int, high: int) {
    LOWEST_BANDWIDTH <= low <= high <= HIGHEST_BANDWIDTH
  }

  predicate AcceptsWaterline(val: int) {
    DEFAULT_WATERLINE <= val <= HIGHEST_BANDWIDTH
  }

  function Configure(cfg: EdtThrottleCfg, c: Command): EdtThrottleCfg {
    match c
    case InitCfg =>
      if cfg.interval == 0 then
        EdtThrottleCfg(DEFAULT_WATERLINE, DEFAULT_INTERVAL, DEFAULT_LOW_BANDWIDTH, DEFAULT_HIGH_BANDWIDTH)
      else cfg
    case SetBandwidth(args) =>
      if args.Some? && AcceptsBandwidth(args.value.0, args.value.1)
      then cfg.(lowRate := args.value.0, highRate := args.value.1) else cfg
    case SetWaterline(arg) =>
      if arg.Some? && AcceptsWaterline(arg.value) then cfg.(waterLine := arg.value) else cfg
  }

  // ---------------------------------------------------------------------
  // The maps, updated in place
  // ---------------------------------------------------------------------

  datatype ExitCode = ExitOk | ExitFailOption

  class BwmMaps {
    var cfg: EdtThrottleCfg
    var throttle: EdtThrottle

    constructor ()
      ensures View() == ZERO_WORLD
    {
      cfg, throttle := ZERO_WORLD.cfg, ZERO_WORLD.throttle;
    }

    function View(): World
      reads this
    {
      World(cfg, throttle)
    }

    method BwmOffline(p: Packet, now: nat) returns (ret: Verdict, tstamp: nat)
      modifies this`throttle
      ensures throttle == CountedOffline(old(throttle), p, now)
      ensures ret == if Drops(old(throttle).tLast, p, now) then Shot else Ok
      ensures ret == Ok ==> SendTime(tstamp, now) == throttle.tLast
      ensures ret == Shot ==> tstamp == p.tstamp
    {
      var tLast := throttle.tLast;
      throttle := throttle.(txBytes := throttle.txBytes + p.len);
      throttle := throttle.(stats := throttle.stats.(offlinePkts := throttle.stats.offlinePkts + 1));
      tstamp := p.tstamp;
      var tSend := p.tstamp;
      if tSend < now {
        tSend := now;
      }
      if p.sock && !p.tcp && tLast > now && tLast - now > MAX_DELAY_STAMP {
        return Shot, tstamp;
      }
      var tDelay := if throttle.rate == 0 then 0 else p.len * NSEC_PER_SEC / throttle.rate;
      var tNext := throttle.tLast + tDelay;
      if tNext <= tSend {
        throttle := throttle.(tLast := tSend);
        return Ok, tstamp;
      }
      tstamp := tNext;
      throttle := throttle.(tLast := tNext);
      return Ok, tstamp;
    }

    method AdjustRate(now: nat)
      requires throttle.tStart <= now
      modifies this`throttle
      ensures throttle == Adjusted(cfg, old(throttle), now)
    {
      var tPast := now - throttle.tStart;
      if tPast > cfg.interval {
        throttle := throttle.(tStart := now);
        var ratePast := PastRate(throttle.onlineTxBytes, tPast);
        var offlineRatePast := PastRate(throttle.txBytes, tPast);
        var stats := throttle.stats;
        if ratePast >= cfg.waterLine {
          throttle := throttle.(rate := cfg.lowRate);
          stats := stats.(lowTimes := stats.lowTimes + 1);
        } else {
          throttle := throttle.(rate := cfg.highRate);
          stats := stats.(highTimes := stats.highTimes + 1);
        }
        if throttle.tStart == now {
          throttle := throttle.(onlineTxBytes := 0, txBytes := 0);
        }
        stats := stats.(ratePast := ratePast, offlineRatePast := offlineRatePast, checkTimes := stats.checkTimes + 1);
        throttle := throttle.(stats := stats);
      }
    }

    method BwmTc(e: Traffic) returns (ret: Verdict, tstamp: nat)
      requires Admit(View()).tStart <= e.tAdj
      modifies this`throttle
      ensures View() == Handle(old(View()), e)
      ensures ret == if Offline(e) && Drops(Admit(old(View())).tLast, e.pkt, e.tCur) then Shot else Ok
      ensures Offline(e) && ret == Ok ==> SendTime(tstamp, e.tCur) == throttle.tLast
      ensures !Offline(e) || ret == Shot ==> tstamp == e.pkt.tstamp
    {
      ret, tstamp := Ok, e.pkt.tstamp;
      if throttle.rate == 0 {
        throttle := throttle.(tLast := 0, rate := cfg.lowRate, txBytes := 0, tStart := 0);
      }
      var priority := (e.prio + e.classid) % 0x1_0000_0000;
      if priority != OFFLINE_PRIO {
        throttle := throttle.(onlineTxBytes := throttle.onlineTxBytes + e.pkt.len);
        throttle := throttle.(stats := throttle.stats.(onlinePkts := throttle.stats.onlinePkts + 1));
      } else {
        ret, tstamp := BwmOffline(e.pkt, e.tCur);
      }
      AdjustRate(e.tAdj);
    }

    method InitCfgMap()
      modifies this`cfg
      ensures cfg == Configure(old(cfg), InitCfg)
    {
      if cfg.interval == 0 {
        cfg := EdtThrottleCfg(DEFAULT_WATERLINE, 10_000_000, DEFAULT_LOW_BANDWIDTH, DEFAULT_HIGH_BANDWIDTH);
      }
    }

    method SetBandwidth(args: Option<(int, int)>) returns (ret: ExitCode)
      modifies this`cfg
      ensures cfg == Configure(old(cfg), Command.SetBandwidth(args))
      ensures ret == ExitOk <==> args.Some? && AcceptsBandwidth(args.value.0, args.value.1)
    {
      if args.None? {
        return ExitFailOption;
      }
      var (low, high) := args.value;
      if low < LOWEST_BANDWIDTH || high > HIGHEST_BANDWIDTH || low > high {
        return ExitFailOption;
      }
      if low != cfg.lowRate || high != cfg.highRate {
        cfg := cfg.(lowRate := low, highRate := high);
      }
      return ExitOk;
    }

    method SetWaterline(arg: Option<int>) returns (ret: ExitCode)
      modifies this`cfg
      ensures cfg == Configure(old(cfg), Command.SetWaterline(arg))
      ensures ret == ExitOk <==> arg.Some? && AcceptsWaterline(arg.value)
    {
      if arg.None? {
        return ExitFailOption;
      }
      var val := arg.value;
      if val < DEFAULT_WATERLINE || val > HIGHEST_BANDWIDTH {
        return ExitFailOption;
      }
      if val != cfg.waterLine {
        cfg := cfg.(waterLine := val);
      }
      return ExitOk;
    }
  }
}
