/** The per-packet path of tc_edt.c as transitions on one slot's statistics,
    and the same code working in place on the egress or ingress maps. */
module Edt {
  import opened Throttle
  import opened Pacer

  /** One packet handled under `cfg`, with the three clock readings the handler
      may take: in stat_init, in statistics_and_edt_packet and in update_rate. */
  datatype Event = Event(pkt: Packet, cfg: ThrottleCfg, tInit: nat, tCur: nat, tUpd: nat)

  function Initialised(s: ThrottleStat, cfg: ThrottleCfg, now: nat): ThrottleStat {
    s.(tLast := 0, tStart := now, rate := cfg.lowRate, txBytes := 0)
  }

  function Admit(s: ThrottleStat, e: Event): ThrottleStat {
    if s.rate == 0 then Initialised(s, e.cfg, e.tInit) else s
  }

  function Statistics(s: ThrottleStat, cfg: ThrottleCfg, p: Packet, now: nat): ThrottleStat {
    s.(txBytes := s.txBytes + p.len, totalPkts := s.totalPkts + 1,
       tLast := if Drops(s.tLast, p, now) then s.tLast else Departure(s.tLast, p, now, cfg.reqRate))
  }

  predicate Closes(s: ThrottleStat, cfg: ThrottleCfg, now: nat) {
    now - s.tStart > cfg.interval
  }

  /** Average byte rate of a sampling period that ends now. */
  function Sample(s: ThrottleStat, now: nat): nat
    requires s.tStart < now
  {
    s.txBytes * NSEC_PER_SEC / (now - s.tStart)
  }

  function Ema(rate: nat, sample: nat): nat {
    (7 * rate + sample) / 8
  }

  function Resampled(s: ThrottleStat, cfg: ThrottleCfg, now: nat): ThrottleStat {
    if Closes(s, cfg, now)
    then s.(tStart := now, rate := Ema(s.rate, Sample(s, now)), txBytes := 0)
    else s
  }

  /** The statistics on which update_rate decides. */
  function Counted(s: ThrottleStat, e: Event): ThrottleStat {
    Statistics(Admit(s, e), e.cfg, e.pkt, e.tCur)
  }

  function Handle(s: ThrottleStat, e: Event): ThrottleStat {
    Resampled(Counted(s, e), e.cfg, e.tUpd)
  }

  predicate Rejects(s: ThrottleStat, e: Event) {
    Drops(Admit(s, e).tLast, e.pkt, e.tCur)
  }

  /** The verdict, and the timestamp the packet then carries: a rejected packet
      keeps its own, an accepted one leaves exactly when the slot records. */
  predicate Stamped(s: ThrottleStat, e: Event, ret: Verdict, tstamp: nat) {
    && (ret == Shot <==> Rejects(s, e))
    && (ret == Shot ==> tstamp == e.pkt.tstamp)
    && (ret == Ok ==> SendTime(tstamp, e.tCur) == Handle(s, e).tLast)
  }

  // ---------------------------------------------------------------------
  // Classification: which (id, priority) word a packet is handled under
  // ---------------------------------------------------------------------

  datatype Ports = Ports(source: uint32, dest: uint32)

  /** What the parser finds: an IPv4 header, and ports if it is TCP or UDP. */
  datatype Headers = Headers(saddr: uint32, daddr: uint32, ports: Option<Ports>)

  /** The first key that is mapped decides; the default stream has id 0. */
  function FirstHit(ids: map<IdKey, uint32>, keys: seq<IdKey>): uint32 {
    if keys == [] then 0
    else if keys[0] in ids then ids[keys[0]]
    else FirstHit(ids, keys[1..])
  }

  /** No key before the hit is mapped. */
  lemma {:induction false} FirstHitIsFirst(ids: map<IdKey, uint32>, keys: seq<IdKey>, k: nat)
    requires k <= |keys| && forall j :: 0 <= j < k ==> keys[j] !in ids
    ensures k < |keys| && keys[k] in ids ==> FirstHit(ids, keys) == ids[keys[k]]
    ensures k == |keys| ==> FirstHit(ids, keys) == 0
  {
    if k > 0 {
      FirstHitIsFirst(ids, keys[1..], k - 1);
    }
  }

  /** As a pod, then as a server by its own port, then as a client by the remote port. */
  function EgressKeys(h: Headers): seq<IdKey> {
    if h.ports.None? then [IdKey(h.saddr, 0)]
    else [IdKey(h.saddr, 0), IdKey(h.saddr, h.ports.value.source), IdKey(h.daddr, h.ports.value.dest)]
  }

  function IngressKeys(h: Headers): seq<IdKey> {
    if h.ports.None? then [IdKey(h.daddr, 0)]
    else [IdKey(h.daddr, 0), IdKey(h.daddr, h.ports.value.dest), IdKey(h.saddr, h.ports.value.source)]
  }

  // SPLIT_ID_PRIORITY: the low 16 bits, and the 16 bits above them.
  function SplitPriority(word: uint32): nat { word % 0x1_0000 }

  function SplitId(word: uint32): nat { word / 0x1_0000 % 0x1_0000 }

  // ---------------------------------------------------------------------
  // The maps, updated in place
  // ---------------------------------------------------------------------

  class Skb {
    const len: uint32
    const sock: bool
    const tcp: bool
    var tstamp: nat

    constructor (len: uint32, tstamp: nat, sock: bool, tcp: bool)
      ensures Packet() == Pacer.Packet(len, tstamp, sock, tcp)
    {
      this.len, this.tstamp, this.sock, this.tcp := len, tstamp, sock, tcp;
    }

    function Packet(): Packet
      reads this
    {
      Pacer.Packet(len, tstamp, sock, tcp)
    }
  }

  /** The id, cfg and stat maps of one direction. */
  class EdtMaps {
    var ids: map<IdKey, uint32>
    const cfg: array<ThrottleCfg>
    const stat: array<ThrottleStat>

    constructor ()
      ensures ids == map[] && fresh(cfg) && fresh(stat)
      ensures cfg.Length == stat.Length == MAX_MAP_SIZE
      ensures forall i :: 0 <= i < MAX_MAP_SIZE ==> cfg[i] == ZERO_CFG && stat[i] == ZERO_STAT
    {
      ids := map[];
      cfg := new ThrottleCfg[MAX_MAP_SIZE](_ => ZERO_CFG);
      stat := new ThrottleStat[MAX_MAP_SIZE](_ => ZERO_STAT);
    }

    method StatInit(id: nat, now: nat)
      requires id < cfg.Length && id < stat.Length
      modifies stat
      ensures stat[..] == old(stat[..])[id := Initialised(old(stat[id]), cfg[id], now)]
    {
      stat[id] := stat[id].(tLast := 0);
      stat[id] := stat[id].(tStart := now);
      stat[id] := stat[id].(rate := cfg[id].lowRate);
      stat[id] := stat[id].(txBytes := 0);
    }

    method StatisticsAndEdtPacket(skb: Skb, id: nat, now: nat) returns (ret: Verdict)
      requires id < cfg.Length && id < stat.Length
      modifies stat, skb
      ensures stat[..] == old(stat[..])[id := Statistics(old(stat[id]), cfg[id], old(skb.Packet()), now)]
      ensures ret == if Drops(old(stat[id]).tLast, old(skb.Packet()), now) then Shot else Ok
      ensures ret == Shot ==> skb.tstamp == old(skb.tstamp)
      ensures ret == Ok ==> SendTime(skb.tstamp, now) == stat[id].tLast
    {
      var tLast := stat[id].tLast;
      stat[id] := stat[id].(txBytes := stat[id].txBytes + skb.len);
      stat[id] := stat[id].(totalPkts := stat[id].totalPkts + 1);

      var tSend := skb.tstamp;
      if tSend < now {
        tSend := now;
      }
      if skb.sock && !skb.tcp && tLast > now && tLast - now > MAX_DELAY_STAMP {
        return Shot;
      }

      var tDelay := if cfg[id].reqRate == 0 then 0 else skb.len * NSEC_PER_SEC / cfg[id].reqRate;
      var tNext := stat[id].tLast + tDelay;
      if tNext <= tSend {
        stat[id] := stat[id].(tLast := tSend);
        return Ok;
      }
      skb.tstamp := tNext;
      stat[id] := stat[id].(tLast := tNext);
      return Ok;
    }

    method UpdateRate(id: nat, now: nat)
      requires id < cfg.Length && id < stat.Length && stat[id].tStart <= now
      modifies stat
      ensures stat[..] == old(stat[..])[id := Resampled(old(stat[id]), cfg[id], now)]
    {
      var tPast := now - stat[id].tStart;
      if tPast > cfg[id].interval {
        stat[id] := stat[id].(tStart := now);
        stat[id] := stat[id].(rate := (7 * stat[id].rate + stat[id].txBytes * NSEC_PER_SEC / tPast) / 8);
        if stat[id].tStart == now {
          stat[id] := stat[id].(txBytes := 0);
        }
      }
    }

    method HandleSlot(skb: Skb, id: nat, tInit: nat, tCur: nat, tUpd: nat) returns (ret: Verdict)
      requires id < cfg.Length && id < stat.Length
      requires stat[id].tStart <= tInit <= tCur <= tUpd
      modifies stat, skb
      ensures var e := Event(old(skb.Packet()), cfg[id], tInit, tCur, tUpd);
        && stat[..] == old(stat[..])[id := Handle(old(stat[id]), e)]
        && Stamped(old(stat[id]), e, ret, skb.tstamp)
    {
      if stat[id].rate == 0 {
        StatInit(id, tInit);
      }
      ret := StatisticsAndEdtPacket(skb, id, tCur);
      UpdateRate(id, tUpd);
    }

    /** egress_edt_handle and ingress_edt_handle: an id outside the maps passes untouched. */
    method EdtHandle(skb: Skb, word: uint32, tInit: nat, tCur: nat, tUpd: nat) returns (ret: Verdict)
      requires cfg.Length == stat.Length == MAX_MAP_SIZE
      requires SplitId(word) < MAX_MAP_SIZE ==>
        stat[SplitId(word)].tStart <= tInit <= tCur <= tUpd
      modifies stat, skb
      ensures SplitId(word) >= MAX_MAP_SIZE ==>
        ret == Ok && stat[..] == old(stat[..]) && skb.tstamp == old(skb.tstamp)
      ensures SplitId(word) < MAX_MAP_SIZE ==>
        var id := SplitId(word);
        var e := Event(old(skb.Packet()), cfg[id], tInit, tCur, tUpd);
        && stat[..] == old(stat[..])[id := Handle(old(stat[id]), e)]
        && Stamped(old(stat[id]), e, ret, skb.tstamp)
    {
      var id := SplitId(word);
      if id >= MAX_MAP_SIZE {
        return Ok;
      }
      ret := HandleSlot(skb, id, tInit, tCur, tUpd);
    }

    method EgressLookup(h: Headers) returns (word: uint32)
      ensures word == FirstHit(ids, EgressKeys(h))
    {
      ghost var keys := EgressKeys(h);
      var key := IdKey(h.saddr, 0);
      FirstHitIsFirst(ids, keys, 0);
      if key in ids { return ids[key]; }
      FirstHitIsFirst(ids, keys, 1);
      if h.ports.Some? {
        key := IdKey(h.saddr, h.ports.value.source);
        if key in ids { return ids[key]; }
        FirstHitIsFirst(ids, keys, 2);
        key := IdKey(h.daddr, h.ports.value.dest);
        if key in ids { return ids[key]; }
        FirstHitIsFirst(ids, keys, 3);
      }
      return 0;
    }

    method IngressLookup(h: Headers) returns (word: uint32)
      ensures word == FirstHit(ids, IngressKeys(h))
    {
      ghost var keys := IngressKeys(h);
      var key := IdKey(h.daddr, 0);
      FirstHitIsFirst(ids, keys, 0);
      if key in ids { return ids[key]; }
      FirstHitIsFirst(ids, keys, 1);
      if h.ports.Some? {
        key := IdKey(h.daddr, h.ports.value.dest);
        if key in ids { return ids[key]; }
        FirstHitIsFirst(ids, keys, 2);
        key := IdKey(h.saddr, h.ports.value.source);
        if key in ids { return ids[key]; }
        FirstHitIsFirst(ids, keys, 3);
      }
      return 0;
    }
  }
}
