/** The allocator and the pacers together: what leaves the host between two rounds. */
module Composed {
  import opened Throttle
  import opened Pacer
  import opened Edt
  import opened EdtRuns
  import opened Allocator
  import opened AllocatorTheorems

  /** One instance with its history: the statistics its slot began with, the packets
      handled before a round wrote its request, and those handled after. */
  datatype Slot = Slot(start: ThrottleStat, past: seq<Event>, evs: seq<Event>)

  /** All departures of the slot, whenever they were stamped. */
  function Traffic(slot: Slot): seq<Sent> {
    Released(slot.start, slot.past + slot.evs)
  }

  /** The last departure already handed out when the round wrote its request. */
  function Booked(slot: Slot): nat {
    Run(slot.start, slot.past).tLast
  }

  /** The slot's history is one schedule, and what leaves in the span was stamped
      under positive rates. */
  ghost predicate Paceable(slot: Slot, t0: nat, t1: nat, maxLen: nat) {
    && AllHarmless(slot.start, slot.past + slot.evs)
    && forall k :: 0 <= k < |Traffic(slot)| && Leaves(Traffic(slot)[k], t0, t1) ==>
         Rated(Traffic(slot)[k]) && Traffic(slot)[k].len <= maxLen
  }

  /** What leaves one slot after t0 and by t1, packets stamped earlier included, keeps
      to the highest request under which any of it was stamped. */
  lemma SlotWindow(slot: Slot, t0: nat, t1: nat, maxLen: nat)
    requires Paceable(slot, t0, t1, maxLen) && t0 <= t1
    ensures var r := TopRate(Traffic(slot), t0, t1);
      BytesIn(Traffic(slot), t0, t1) * NSEC_PER_SEC
      <= r * (t1 - t0) + PacketsIn(Traffic(slot), t0, t1) * (r - 1) + maxLen * NSEC_PER_SEC
  {
    RunIsPacedExactly(slot.start, slot.past + slot.evs);
    WindowBound(slot.start.tLast, Traffic(slot), t0, t1, maxLen);
  }

  // ---------------------------------------------------------------------
  // Many slots
  // ---------------------------------------------------------------------

  /** Bytes that leave any of the slots in the span. */
  function WireBytes(slots: seq<Slot>, t0: nat, t1: nat): nat {
    if slots == [] then 0
    else WireBytes(slots[..|slots| - 1], t0, t1) + BytesIn(Traffic(slots[|slots| - 1]), t0, t1)
  }

  function TopRates(slots: seq<Slot>, t0: nat, t1: nat): nat {
    if slots == [] then 0
    else TopRates(slots[..|slots| - 1], t0, t1) + TopRate(Traffic(slots[|slots| - 1]), t0, t1)
  }

  /** What rounding and one packet a slot may add. */
  function Slack(slots: seq<Slot>, t0: nat, t1: nat, maxLen: nat): int {
    if slots == [] then 0
    else
      var a := Traffic(slots[|slots| - 1]);
      Slack(slots[..|slots| - 1], t0, t1, maxLen)
      + PacketsIn(a, t0, t1) * (TopRate(a, t0, t1) - 1) + maxLen * NSEC_PER_SEC
  }

  /** What the slots together send after t0 and by t1 keeps to one rate. */
  ghost predicate HostWithin(slots: seq<Slot>, rate: nat, t0: nat, t1: nat, maxLen: nat) {
    WireBytes(slots, t0, t1) * NSEC_PER_SEC <= rate * (t1 - t0) + Slack(slots, t0, t1, maxLen)
  }

  /** In any span of time the host keeps to the sum of the requests under which the
      packets leaving each slot were stamped, in whatever rounds that was. */
  lemma {:induction false} HostWindow(slots: seq<Slot>, t0: nat, t1: nat, maxLen: nat)
    requires t0 <= t1 && forall slot :: slot in slots ==> Paceable(slot, t0, t1, maxLen)
    ensures HostWithin(slots, TopRates(slots, t0, t1), t0, t1, maxLen)
  {
    if slots != [] {
      var rest, slot := slots[..|slots| - 1], slots[|slots| - 1];
      HostWindow(rest, t0, t1, maxLen);
      SlotWindow(slot, t0, t1, maxLen);
      AddRates(TopRates(rest, t0, t1), TopRate(Traffic(slot), t0, t1), t1 - t0);
    }
  }

  lemma WithinMore(slots: seq<Slot>, x: nat, y: nat, t0: nat, t1: nat, maxLen: nat)
    requires HostWithin(slots, x, t0, t1, maxLen) && x <= y && t0 <= t1
    ensures HostWithin(slots, y, t0, t1, maxLen)
  {
    ScaleUp(t1 - t0, x, y);
  }

  lemma AddRates(x: nat, y: nat, d: nat)
    ensures (x + y) * d == x * d + y * d
  {
  }

  // ---------------------------------------------------------------------
  // One round
  // ---------------------------------------------------------------------

  /** After the round the slot's packets are stamped under the request r, and those
      stamped before have left by t0. */
  ghost predicate Serves(slot: Slot, r: nat, t0: nat, maxLen: nat) {
    && AllHarmless(slot.start, slot.past + slot.evs) && Booked(slot) <= t0
    && forall e :: e in slot.evs ==> e.cfg.reqRate == r && e.pkt.len <= maxLen
  }

  /** Then nothing that leaves later was stamped under another request. */
  lemma ServesIsPaceable(slot: Slot, r: nat, t0: nat, t1: nat, maxLen: nat)
    requires Serves(slot, r, t0, maxLen) && r > 0
    ensures Paceable(slot, t0, t1, maxLen) && TopRate(Traffic(slot), t0, t1) <= r
  {
    var base, s' := slot.start.tLast, Run(slot.start, slot.past);
    var a, b := Released(slot.start, slot.past), Released(s', slot.evs);
    ReleasedSplit(slot.start, slot.past, slot.evs);
    RunIsPacedExactly(slot.start, slot.past + slot.evs);
    RunIsPacedExactly(slot.start, slot.past);
    PacedJoin(base, a, b);
    ReleasedAre(s', slot.evs, r, maxLen);
    forall k | 0 <= k < |a + b| && Leaves((a + b)[k], t0, t1)
      ensures Rated((a + b)[k]) && (a + b)[k].rate <= r && (a + b)[k].len <= maxLen
    {
      if k < |a| {
        DeparturesGrow(base, a, k + 1, |a|);
        assert false;
      } else {
        assert (a + b)[k] in b;
      }
    }
    TopRateAtMost(Traffic(slot), t0, t1, r);
  }

  /** The slots of the active instances among the first n. */
  function Actives(t: Table, slots: seq<Slot>, n: nat): seq<Slot>
    requires t.Valid() && n <= |t.cfg| == |slots|
  {
    if n == 0 then []
    else Actives(t, slots, n - 1) + if t.stat[n - 1].rate > 0 then [slots[n - 1]] else []
  }

  ghost predicate AllServe(t: Table, slots: seq<Slot>, t0: nat, maxLen: nat) {
    && t.Valid() && |slots| == |t.cfg|
    && forall i :: 0 <= i < |slots| ==> ServesAt(t, slots, i, t0, maxLen)
  }

  ghost predicate ServesAt(t: Table, slots: seq<Slot>, i: nat, t0: nat, maxLen: nat)
    requires t.Valid() && i < |slots| == |t.cfg|
  {
    t.stat[i].rate > 0 ==> Serves(slots[i], t.cfg[i].reqRate, t0, maxLen)
  }

  ghost predicate Requests(t: Table) {
    t.Valid() && forall i :: 0 <= i < |t.cfg| ==> RequestsAt(t, i)
  }

  predicate RequestsAt(t: Table, i: nat)
    requires t.Valid() && i < |t.cfg|
  {
    t.stat[i].rate > 0 ==> t.cfg[i].reqRate > 0
  }

  lemma PaceableOneMore(slots: seq<Slot>, slot: Slot, t0: nat, t1: nat, maxLen: nat)
    requires Paceable(slot, t0, t1, maxLen) && forall x :: x in slots ==> Paceable(x, t0, t1, maxLen)
    ensures forall x :: x in slots + [slot] ==> Paceable(x, t0, t1, maxLen)
  {
  }

  lemma {:induction false} ActivesArePaceable(t: Table, slots: seq<Slot>, t0: nat, t1: nat, maxLen: nat, n: nat)
    requires AllServe(t, slots, t0, maxLen) && Requests(t) && n <= |slots|
    ensures forall slot :: slot in Actives(t, slots, n) ==> Paceable(slot, t0, t1, maxLen)
  {
    if n > 0 {
      ActivesArePaceable(t, slots, t0, t1, maxLen, n - 1);
      assert ServesAt(t, slots, n - 1, t0, maxLen) && RequestsAt(t, n - 1);
      if t.stat[n - 1].rate > 0 {
        ServesIsPaceable(slots[n - 1], t.cfg[n - 1].reqRate, t0, t1, maxLen);
        PaceableOneMore(Actives(t, slots, n - 1), slots[n - 1], t0, t1, maxLen);
      } else {
        assert Actives(t, slots, n) == Actives(t, slots, n - 1);
      }
    }
  }

  lemma TopRatesOfOneMore(slots: seq<Slot>, slot: Slot, t0: nat, t1: nat)
    ensures TopRates(slots + [slot], t0, t1) == TopRates(slots, t0, t1) + TopRate(Traffic(slot), t0, t1)
  {
    assert (slots + [slot])[..|slots|] == slots;
  }

  lemma {:induction false} ActivesTopRates(t: Table, slots: seq<Slot>, t0: nat, t1: nat, maxLen: nat, n: nat)
    requires AllServe(t, slots, t0, maxLen) && Requests(t) && n <= |slots|
    ensures TopRates(Actives(t, slots, n), t0, t1) <= SumReq(t, n)
  {
    if n > 0 {
      ActivesTopRates(t, slots, t0, t1, maxLen, n - 1);
      assert ServesAt(t, slots, n - 1, t0, maxLen) && RequestsAt(t, n - 1);
      if t.stat[n - 1].rate > 0 {
        ServesIsPaceable(slots[n - 1], t.cfg[n - 1].reqRate, t0, t1, maxLen);
        TopRatesOfOneMore(Actives(t, slots, n - 1), slots[n - 1], t0, t1);
      } else {
        assert Actives(t, slots, n) == Actives(t, slots, n - 1);
      }
    }
  }

  lemma ActivesWithin(t: Table, slots: seq<Slot>, cap: nat, t0: nat, t1: nat, maxLen: nat)
    requires AllServe(t, slots, t0, maxLen) && Requests(t) && t0 <= t1 && ActiveSum(t) <= cap
    ensures HostWithin(Actives(t, slots, |slots|), cap, t0, t1, maxLen)
  {
    var act := Actives(t, slots, |slots|);
    ActivesArePaceable(t, slots, t0, t1, maxLen, |slots|);
    ActivesTopRates(t, slots, t0, t1, maxLen, |slots|);
    HostWindow(act, t0, t1, maxLen);
    WithinMore(act, TopRates(act, t0, t1), cap, t0, t1, maxLen);
  }

  /** The total bandwidth, or the phase-1 sum if larger, plus one for each grant. */
  function RateCap(t: Table, p: Params, totalBw: nat): nat
    requires t.Valid() && p.pace > 0
  {
    var s := Phase1(t, p);
    Max(totalBw, ActiveSum(s)) + Grants(s, Remain(s, totalBw), Stop(s, totalBw))
  }

  /** The composed guarantee: after a round, from a time t0 by which the departures
      booked before it are over, all that leaves the active instances until the next
      round keeps to the cap of the round. */
  lemma HostBandwidthBound(t: Table, p: Params, totalBw: nat, r: Table, slots: seq<Slot>, t0: nat, t1: nat, maxLen: nat)
    requires t.Valid() && p.pace > 0 && p.minBandwidth > 0 && t0 <= t1
    requires forall i :: 0 <= i < |t.cfg| && t.stat[i].rate > 0 ==> t.cfg[i].lowRate > 0
    requires r == Round(t, p, totalBw) && AllServe(r, slots, t0, maxLen)
    ensures HostWithin(Actives(r, slots, |slots|), RateCap(t, p, totalBw), t0, t1, maxLen)
  {
    forall i | 0 <= i < |slots| ensures RequestsAt(r, i) {
      if t.stat[i].rate > 0 {
        RoundStaysPositive(t, p, totalBw, i);
      }
    }
    RoundConservation(Phase1(t, p), totalBw);
    ActivesWithin(r, slots, RateCap(t, p, totalBw), t0, t1, maxLen);
  }

  /** Datagrams are booked at most ten seconds and one transmission time ahead, so
      for them the cap holds from then on at the latest. */
  lemma DatagramsDrain(slot: Slot, now: nat, t0: nat, maxLen: nat, minRate: nat)
    requires minRate > 0 && slot.past != [] && Timed(now, slot.past)
    requires forall e :: e in slot.past ==> Datagram(e) && minRate <= e.cfg.reqRate && e.pkt.len <= maxLen
    requires t0 >= slot.start.tLast
    requires t0 >= slot.past[|slot.past| - 1].tCur + MAX_DELAY_STAMP + Delay(maxLen, minRate)
    ensures Booked(slot) <= t0
  {
    BacklogBound(slot.start, slot.past, now, maxLen, minRate);
  }

  /** All its past packets were handled at time 0, under this configuration. */
  ghost predicate StampedUnder(slot: Slot, cfg: ThrottleCfg, maxLen: nat) {
    forall e :: e in slot.past ==> e.cfg == cfg && e.tUpd == 0 && e.pkt.len <= maxLen
  }

  ghost predicate CapIsBroken() {
    exists t: Table, p: Params, totalBw: nat, slot: Slot, t1: nat, maxLen: nat ::
      OverCap(t, p, totalBw, slot, t1, maxLen)
  }

  /** A round that reads the slot caps the host, and yet more leaves the slot from then
      to t1, by packets stamped under the request that the round lowered. */
  ghost predicate OverCap(t: Table, p: Params, totalBw: nat, slot: Slot, t1: nat, maxLen: nat) {
    && t.Valid() && |t.cfg| == 1 && p.pace > 0 && p.minBandwidth > 0
    && t.stat[0] == Run(slot.start, slot.past) && t.stat[0].rate > 0 && t.cfg[0].lowRate > 0
    && slot.evs == [] && AllHarmless(slot.start, slot.past + slot.evs) && Booked(slot) == t1
    && StampedUnder(slot, t.cfg[0], maxLen)
    && !HostWithin(Actives(Round(t, p, totalBw), [slot], 1), RateCap(t, p, totalBw), 0, t1, maxLen)
  }

  /** The backlog matters: three packets of 1000 bytes stamped at 1000 bytes per second
      leave at 1, 2 and 3 s, although a round at time 0, which found the slot measured
      at half its request, lowered that to 500 and capped the host at 500. */
  lemma BacklogBreaksCap()
    ensures CapIsBroken()
  {
    var cfg := BacklogCfg();
    var p := Params(1, 2, 7, 10);
    var e := Event(Pacer.Packet(1000, 0, false, false), cfg, 0, 0, 0);
    var slot := Slot(ZERO_STAT, [e, e, e], []);
    var t := Table([cfg], [ThrottleStat(3_000_000_000, 0, 500, 3000, 3)], [1]);
    assert t.Valid();
    BacklogRound(t, p);
    BacklogSent(e, slot);
    BacklogOverCap(t, p, slot);
  }

  lemma BacklogOverCap(t: Table, p: Params, slot: Slot)
    requires t.Valid() && |t.cfg| == 1 && p.pace > 0 && p.minBandwidth > 0 && t.stat[0].rate > 0 && t.cfg[0].lowRate > 0
    requires RateCap(t, p, 500) == 500 && Round(t, p, 500).stat == t.stat
    requires t.stat[0] == Run(slot.start, slot.past) && slot.evs == [] && AllHarmless(slot.start, slot.past + slot.evs)
    requires Booked(slot) == 3_000_000_000 && BacklogTraffic(slot)
    requires StampedUnder(slot, t.cfg[0], 1000)
    ensures CapIsBroken()
  {
    OneActive(Round(t, p, 500), slot);
    BacklogExceeds(slot);
    NotWithinEither([slot], Actives(Round(t, p, 500), [slot], 1), 500, RateCap(t, p, 500), 3_000_000_000, 1000);
    assert OverCap(t, p, 500, slot, 3_000_000_000, 1000);
  }

  lemma NotWithinEither(a: seq<Slot>, b: seq<Slot>, x: nat, y: nat, t1: nat, maxLen: nat)
    requires !HostWithin(a, x, 0, t1, maxLen) && a == b && x == y
    ensures !HostWithin(b, y, 0, t1, maxLen)
  {
  }

  predicate BacklogTraffic(slot: Slot) {
    Traffic(slot) == [
      Sent(1000, 0, 1000, 1_000_000_000, 1_000_000_000),
      Sent(1000, 0, 1000, 1_000_000_000, 2_000_000_000),
      Sent(1000, 0, 1000, 1_000_000_000, 3_000_000_000)]
  }

  lemma OneActive(r: Table, slot: Slot)
    requires r.Valid() && |r.cfg| == 1 && r.stat[0].rate > 0
    ensures Actives(r, [slot], 1) == [slot]
  {
    assert Actives(r, [slot], 0) == [];
  }

  function BacklogCfg(): ThrottleCfg {
    ThrottleCfg(0, 10_000_000, 500, 1000, 1000)
  }

  lemma BacklogRound(t: Table, p: Params)
    requires t == Table([BacklogCfg()], [ThrottleStat(3_000_000_000, 0, 500, 3000, 3)], [1]) && p == Params(1, 2, 7, 10)
    ensures RateCap(t, p, 500) == 500 && Round(t, p, 500).stat == t.stat
  {
    var s := Phase1(t, p);
    assert DeltaBw(1000, 2) == 500;
    assert s.cfg[0].reqRate == 500 && s.status[0] == DOWN;
    assert SumReq(s, 0) == 0 && SumReq(s, 1) == 500;
    assert Remain(s, 500) == 0;
    assert Grant(s, 0, 0) == 0;
    var stop := Stop(s, 500);
    assert stop == 1;
    assert Grants(s, 0, 0) == 0 && Grants(s, 0, 1) == 0;
  }

  lemma BacklogSent(e: Event, slot: Slot)
    requires e == Event(Pacer.Packet(1000, 0, false, false), BacklogCfg(), 0, 0, 0)
    requires slot == Slot(ZERO_STAT, [e, e, e], [])
    ensures AllHarmless(slot.start, slot.past + slot.evs)
    ensures StampedUnder(slot, e.cfg, 1000)
    ensures Run(slot.start, slot.past) == ThrottleStat(3_000_000_000, 0, 500, 3000, 3)
    ensures BacklogTraffic(slot)
  {
    assert slot.past + slot.evs == [e, e, e];
    assert Delay(1000, 1000) == 1_000_000_000;
    var s1 := Handle(ZERO_STAT, e);
    assert s1 == ThrottleStat(1_000_000_000, 0, 500, 1000, 1);
    var s2 := Handle(s1, e);
    assert s2 == ThrottleStat(2_000_000_000, 0, 500, 2000, 2);
    var s3 := Handle(s2, e);
    assert s3 == ThrottleStat(3_000_000_000, 0, 500, 3000, 3);
    assert [e, e, e][1..] == [e, e] && [e, e][1..] == [e] && [e][1..] == [];
    assert Run(s2, [e]) == Run(s3, []) && Run(s1, [e, e]) == Run(s2, [e]);
    assert AllHarmless(s2, [e]) && AllHarmless(s1, [e, e]);
    assert Released(s2, [e]) == Outgoing(s2, e);
    assert Released(s1, [e, e]) == Outgoing(s1, e) + Outgoing(s2, e);
    assert Released(ZERO_STAT, [e, e, e]) == Outgoing(ZERO_STAT, e) + (Outgoing(s1, e) + Outgoing(s2, e));
  }

  lemma BacklogExceeds(slot: Slot)
    requires BacklogTraffic(slot)
    ensures !HostWithin([slot], 500, 0, 3_000_000_000, 1000)
  {
    var a, t1 := Traffic(slot), 3_000_000_000;
    assert a[..2][..1] == a[..1] && a[..1][..0] == [];
    assert BytesIn(a[..1], 0, t1) == 1000 && BytesIn(a[..2], 0, t1) == 2000 && BytesIn(a, 0, t1) == 3000;
    assert PacketsIn(a[..1], 0, t1) == 1 && PacketsIn(a[..2], 0, t1) == 2 && PacketsIn(a, 0, t1) == 3;
    assert TopRate(a[..1], 0, t1) == 1000 && TopRate(a[..2], 0, t1) == 1000 && TopRate(a, 0, t1) == 1000;
    assert [slot][..0] == [];
    assert WireBytes([slot], 0, t1) == 3000;
    assert Slack([slot], 0, t1, 1000) == 3 * 999 + 1000 * NSEC_PER_SEC;
  }
}
