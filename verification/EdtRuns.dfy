/** What tc_edt.c guarantees over whole runs of one slot. */
module EdtRuns {
  import opened Throttle
  import opened Pacer
  import opened Edt

  /** The clock never goes back, from `now` on. */
  ghost predicate Timed(now: nat, evs: seq<Event>)
    decreases |evs|
  {
    evs != [] ==>
      now <= evs[0].tInit <= evs[0].tCur <= evs[0].tUpd && Timed(evs[0].tUpd, evs[1..])
  }

  function Run(s: ThrottleStat, evs: seq<Event>): ThrottleStat
    decreases |evs|
  {
    if evs == [] then s else Run(Handle(s, evs[0]), evs[1..])
  }

  /** The packets a run lets through, with the departure times it gives them. */
  function Released(s: ThrottleStat, evs: seq<Event>): seq<Sent>
    decreases |evs|
  {
    if evs == [] then [] else Outgoing(s, evs[0]) + Released(Handle(s, evs[0]), evs[1..])
  }

  function Outgoing(s: ThrottleStat, e: Event): seq<Sent> {
    if Rejects(s, e) then []
    else [Sent(e.pkt.len, SendTime(e.pkt.tstamp, e.tCur), e.cfg.reqRate,
               Delay(e.pkt.len, e.cfg.reqRate), Handle(s, e).tLast)]
  }

  function Dropped(s: ThrottleStat, evs: seq<Event>): nat
    decreases |evs|
  {
    if evs == [] then 0
    else (if Rejects(s, evs[0]) then 1 else 0) + Dropped(Handle(s, evs[0]), evs[1..])
  }

  // ---------------------------------------------------------------------
  // Pacing
  // ---------------------------------------------------------------------

  /** Either stat_init does not fire for this packet, or what it forgets is no
      longer needed: the packet may leave by now whatever was booked before. */
  predicate Harmless(s: ThrottleStat, e: Event) {
    s.rate > 0 || s.tLast == 0 || s.tLast + Delay(e.pkt.len, e.cfg.reqRate) <= SendTime(e.pkt.tstamp, e.tCur)
  }

  predicate AllHarmless(s: ThrottleStat, evs: seq<Event>)
    decreases |evs|
  {
    evs != [] ==> Harmless(s, evs[0]) && AllHarmless(Handle(s, evs[0]), evs[1..])
  }

  /** Dropped packets, changes of req_rate and the closing of sampling periods do
      not disturb a schedule; a reset does exactly when it is not harmless. */
  lemma OnePacedExactly(s: ThrottleStat, e: Event)
    ensures Paced(s.tLast, Outgoing(s, e)) <==> Harmless(s, e)
    ensures Before(s.tLast, Outgoing(s, e), |Outgoing(s, e)|) == Handle(s, e).tLast
  {
    var a := Outgoing(s, e);
    assert !Rejects(s, e) ==> |a| == 1 && (Paced(s.tLast, a) <==> PacedAt(s.tLast, a, 0));
  }

  /** A run is one departure schedule exactly when every reset in it is harmless. */
  lemma {:induction false} RunIsPacedExactly(s: ThrottleStat, evs: seq<Event>)
    ensures Paced(s.tLast, Released(s, evs)) <==> AllHarmless(s, evs)
    ensures Run(s, evs).tLast == Before(s.tLast, Released(s, evs), |Released(s, evs)|)
    decreases |evs|
  {
    if evs != [] {
      var s' := Handle(s, evs[0]);
      OnePacedExactly(s, evs[0]);
      RunIsPacedExactly(s', evs[1..]);
      PacedJoin(s.tLast, Outgoing(s, evs[0]), Released(s', evs[1..]));
    }
  }

  lemma {:induction false} ReleasedSplit(s: ThrottleStat, a: seq<Event>, b: seq<Event>)
    ensures Released(s, a + b) == Released(s, a) + Released(Run(s, a), b)
    decreases |a|
  {
    if a == [] {
      assert a + b == b;
    } else {
      assert (a + b)[1..] == a[1..] + b;
      ReleasedSplit(Handle(s, a[0]), a[1..], b);
    }
  }

  /** The packets of a run are stamped under the rates of its configurations. */
  lemma {:induction false} ReleasedAre(s: ThrottleStat, evs: seq<Event>, r: nat, maxLen: nat)
    requires forall e :: e in evs ==> 0 < e.cfg.reqRate <= r && e.pkt.len <= maxLen
    ensures forall p :: p in Released(s, evs) ==> Rated(p) && p.rate <= r && p.len <= maxLen
    decreases |evs|
  {
    if evs != [] {
      ReleasedAre(Handle(s, evs[0]), evs[1..], r, maxLen);
    }
  }

  /** The pacing bound of a slot: with every req_rate in force positive and at most r,
      between any two departures of the run the bytes released keep to rate r. */
  lemma SlotPacingBound(s: ThrottleStat, evs: seq<Event>, r: nat, i: nat, j: nat)
    requires AllHarmless(s, evs)
    requires forall e :: e in evs ==> 0 < e.cfg.reqRate <= r
    requires i <= j <= |Released(s, evs)|
    ensures var a := Released(s, evs);
      && Before(s.tLast, a, i) <= Before(s.tLast, a, j)
      && Within(r, Bytes(a[i..j]), Before(s.tLast, a, i), Before(s.tLast, a, j), j - i)
  {
    var a := Released(s, evs);
    RunIsPacedExactly(s, evs);
    ReleasedAre(s, evs, r, 0xffff_ffff);
    forall k | 0 <= k < |a| ensures RatedAt(a[k], r) {
      assert a[k] in a;
      DelayIsRated(a[k], r);
    }
    PacingBoundBetween(s.tLast, a, r, i, j);
  }

  /** And while its packets wait for each other only, they use rate r in full when every
      req_rate in force is at least r. */
  lemma SlotBusyBound(s: ThrottleStat, evs: seq<Event>, r: nat, i: nat, j: nat)
    requires AllHarmless(s, evs) && r > 0
    requires forall e :: e in evs ==> r <= e.cfg.reqRate
    requires i <= j <= |Released(s, evs)|
    requires forall k :: i <= k < j ==> Queued(s.tLast, Released(s, evs), k)
    ensures var a := Released(s, evs);
      r * (Before(s.tLast, a, j) - Before(s.tLast, a, i)) <= Bytes(a[i..j]) * NSEC_PER_SEC
  {
    var a, base := Released(s, evs), Before(s.tLast, Released(s, evs), i);
    RunIsPacedExactly(s, evs);
    ReleasedAtLeast(s, evs, r);
    PacedStretch(s.tLast, a, i, j);
    forall k | 0 <= k < j - i ensures BusyAt(base, a[i..j], r, k) {
      assert Queued(s.tLast, a, i + k) && a[i + k] in a;
    }
    BusyBound(base, a[i..j], r);
  }

  predicate Queued(base: nat, a: seq<Sent>, k: nat)
    requires k < |a|
  {
    a[k].send <= Before(base, a, k) + a[k].delay
  }

  lemma {:induction false} ReleasedAtLeast(s: ThrottleStat, evs: seq<Event>, r: nat)
    requires r > 0 && forall e :: e in evs ==> r <= e.cfg.reqRate
    ensures forall p :: p in Released(s, evs) ==> Rated(p) && r <= p.rate
    decreases |evs|
  {
    if evs != [] {
      ReleasedAtLeast(Handle(s, evs[0]), evs[1..], r);
    }
  }

  /** One accepted packet: with d its transmission time in whole nanoseconds, it leaves
      at its own timestamp, now, or d after its predecessor, whichever is last. */
  lemma DepartureExactly(s: ThrottleStat, e: Event, d: nat)
    requires e.cfg.reqRate > 0 && !Rejects(s, e) && s.rate > 0
    requires e.cfg.reqRate * d <= e.pkt.len * 1_000_000_000 < e.cfg.reqRate * (d + 1)
    ensures var t := Handle(s, e).tLast;
      && t >= e.pkt.tstamp && t >= e.tCur && t >= s.tLast + d
      && (t == e.pkt.tstamp || t == e.tCur || t == s.tLast + d)
  {
    DelayIs(e.pkt.len, e.cfg.reqRate, d);
  }

  /** Rejected are the packets of sockets other than TCP, and only while the slot is
      booked more than ten seconds ahead; the slot then stays booked as it was. */
  lemma RejectsExactly(s: ThrottleStat, e: Event)
    ensures Rejects(s, e) <==> s.rate > 0 && e.pkt.sock && !e.pkt.tcp && s.tLast > e.tCur + 10_000_000_000
    ensures Rejects(s, e) ==> Handle(s, e).tLast == s.tLast
  {
  }

  /** The first packet of a slot starts its average at the low rate, and its first
      sampling period with the packet's bytes. */
  lemma FirstPacketStarts(s: ThrottleStat, e: Event)
    requires s.rate == 0 && e.tUpd <= e.tInit + e.cfg.interval
    ensures var n := Handle(s, e);
      n.rate == e.cfg.lowRate && n.tStart == e.tInit && n.txBytes == e.pkt.len && n.tLast >= e.tCur
  {
  }

  /** No departure of the schedule can be improved: it is admissible, and every
      admissible one is at least as late. */
  ghost predicate Least(base: nat, a: seq<Sent>) {
    && Admissible(base, a, Departures(a))
    && forall e :: Admissible(base, a, e) ==> NotAfter(a, e)
  }

  ghost predicate NotAfter(a: seq<Sent>, e: seq<nat>)
    requires |e| == |a|
  {
    forall k :: 0 <= k < |a| ==> a[k].dep <= e[k]
  }

  /** The pacer neither sends a packet too early nor holds it back needlessly,
      exactly when every reset in the run is harmless. */
  lemma SlotScheduleIsLeastExactly(s: ThrottleStat, evs: seq<Event>)
    ensures Least(s.tLast, Released(s, evs)) <==> AllHarmless(s, evs)
  {
    var a := Released(s, evs);
    RunIsPacedExactly(s, evs);
    if AllHarmless(s, evs) {
      LeastSchedule(s.tLast, a, Departures(a));
      forall e | Admissible(s.tLast, a, e) ensures NotAfter(a, e) {
        LeastSchedule(s.tLast, a, e);
      }
    } else if Least(s.tLast, a) {
      LeastIsPaced(s.tLast, a);
    }
  }

  /** The departures that pacing alone would give. */
  function Ideal(base: nat, a: seq<Sent>): (e: seq<nat>)
    ensures |e| == |a|
  {
    if a == [] then []
    else
      var e := Ideal(base, a[..|a| - 1]);
      e + [Max(a[|a| - 1].send, (if e == [] then base else e[|e| - 1]) + a[|a| - 1].delay)]
  }

  lemma {:induction false} IdealIsAdmissible(base: nat, a: seq<Sent>)
    ensures Admissible(base, a, Ideal(base, a))
  {
    if a != [] {
      var n := |a| - 1;
      var b, e, f := a[..n], Ideal(base, a[..n]), Ideal(base, a);
      IdealIsAdmissible(base, b);
      forall k | 0 <= k < |a| ensures AdmissibleAt(base, a, f, k) {
        assert k < n ==> AdmissibleAt(base, b, e, k);
      }
    }
  }

  lemma {:induction false} BelowIdeal(base: nat, a: seq<Sent>)
    requires Admissible(base, a, Departures(a)) && NotAfter(a, Ideal(base, a))
    ensures Paced(base, a)
  {
    if a != [] {
      var n := |a| - 1;
      var b, e, f := a[..n], Ideal(base, a[..n]), Ideal(base, a);
      forall k | 0 <= k < n
        ensures AdmissibleAt(base, b, Departures(b), k)
        ensures b[k].dep <= e[k]
      {
        assert AdmissibleAt(base, a, Departures(a), k);
        assert f[k] == e[k] && a[k].dep <= f[k];
      }
      BelowIdeal(base, b);
      IdealIs(base, b);
      forall k | 0 <= k < |a| ensures PacedAt(base, a, k) {
        assert AdmissibleAt(base, a, Departures(a), k);
        assert k < n ==> PacedAt(base, b, k);
        assert a[n].dep <= f[n];
      }
    }
  }

  lemma {:induction false} IdealIs(base: nat, a: seq<Sent>)
    requires Paced(base, a)
    ensures Ideal(base, a) == Departures(a)
  {
    if a != [] {
      var n := |a| - 1;
      PacedStretch(base, a, 0, n);
      assert a[0..n] == a[..n];
      IdealIs(base, a[..n]);
      assert PacedAt(base, a, n);
    }
  }

  lemma LeastIsPaced(base: nat, a: seq<Sent>)
    requires Least(base, a)
    ensures Paced(base, a)
  {
    IdealIsAdmissible(base, a);
    BelowIdeal(base, a);
  }

  /** Every packet is counted once, as released or as dropped. */
  lemma {:induction false} PacketsAccounted(s: ThrottleStat, evs: seq<Event>)
    ensures Run(s, evs).totalPkts == s.totalPkts + |Released(s, evs)| + Dropped(s, evs)
    ensures |Released(s, evs)| + Dropped(s, evs) == |evs|
    decreases |evs|
  {
    if evs != [] {
      PacketsAccounted(Handle(s, evs[0]), evs[1..]);
    }
  }

  // ---------------------------------------------------------------------
  // Backlog
  // ---------------------------------------------------------------------

  predicate Datagram(e: Event) {
    e.pkt.sock && !e.pkt.tcp && e.pkt.tstamp <= e.tCur + MAX_DELAY_STAMP
  }

  lemma DelayMonotone(len: nat, maxLen: nat, rate: nat, minRate: nat)
    requires len <= maxLen && 0 < minRate <= rate
    ensures Delay(len, rate) <= Delay(maxLen, minRate)
  {
    var d := Delay(len, rate);
    assert d * minRate <= d * rate;
    FitsIn(d, minRate, maxLen * NSEC_PER_SEC);
  }

  lemma FitsIn(d: nat, q: nat, y: nat)
    requires q > 0 && d * q <= y
    ensures d <= y / q
  {
    var e := y / q;
    assert y < e * q + q;
    if d > e {
      ScaleUp(q, e + 1, d);
    }
  }

  /** After an accepted datagram the slot is booked at most ten seconds and one
      transmission time ahead of the clock; for clocks below 2^62 (146 years of
      uptime) no 64-bit time computed on the way wraps. */
  lemma BacklogAfterAccepted(s: ThrottleStat, e: Event, maxLen: nat, minRate: nat)
    requires 0 < minRate <= e.cfg.reqRate && e.pkt.len <= maxLen
    requires Datagram(e) && !Rejects(s, e)
    ensures Handle(s, e).tLast <= e.tCur + MAX_DELAY_STAMP + Delay(maxLen, minRate)
    ensures e.tCur < 0x4000_0000_0000_0000 ==>
      Admit(s, e).tLast + Delay(e.pkt.len, e.cfg.reqRate) < 0x1_0000_0000_0000_0000
  {
    DelayMonotone(e.pkt.len, maxLen, e.cfg.reqRate, minRate);
    DelayMonotone(e.pkt.len, e.pkt.len, e.cfg.reqRate, 1);
  }

  /** How far ahead of the clock a slot can be booked after a run of datagrams. */
  lemma {:induction false} BacklogBound(s: ThrottleStat, evs: seq<Event>, now: nat, maxLen: nat, minRate: nat)
    requires minRate > 0
    requires forall e :: e in evs ==> Datagram(e) && minRate <= e.cfg.reqRate && e.pkt.len <= maxLen
    requires Timed(now, evs) && evs != []
    ensures now <= evs[|evs| - 1].tCur
    ensures Run(s, evs).tLast <=
      Max(Admit(s, evs[0]).tLast, evs[|evs| - 1].tCur + MAX_DELAY_STAMP + Delay(maxLen, minRate))
    decreases |evs|
  {
    var e, s' := evs[0], Handle(s, evs[0]);
    if !Rejects(s, e) {
      BacklogAfterAccepted(s, e, maxLen, minRate);
    }
    if |evs| > 1 {
      BacklogBound(s', evs[1..], e.tUpd, maxLen, minRate);
    }
  }

  // ---------------------------------------------------------------------
  // The averaged rate
  // ---------------------------------------------------------------------

  /** Every configuration restarts the average from a positive low rate. */
  predicate Configured(evs: seq<Event>) {
    forall e :: e in evs ==> e.cfg.lowRate > 0
  }

  /** stat_init never fires during the run. */
  predicate NeverReset(s: ThrottleStat, evs: seq<Event>)
    decreases |evs|
  {
    evs != [] ==> s.rate > 0 && NeverReset(Handle(s, evs[0]), evs[1..])
  }

  /** stat_init fires for no packet but, at most, the first. */
  predicate ResetAtMostOnce(s: ThrottleStat, evs: seq<Event>) {
    evs != [] ==> NeverReset(Handle(s, evs[0]), evs[1..])
  }

  /** A sampling period ends at this packet with the average at 1 and less than
      one byte per second measured. */
  predicate Starves(s: ThrottleStat, e: Event) {
    var c := Counted(s, e);
    Closes(c, e.cfg, e.tUpd) && c.rate == 1 && c.txBytes * NSEC_PER_SEC < e.tUpd - c.tStart
  }

  lemma RateReachesZeroExactly(s: ThrottleStat, e: Event)
    requires e.cfg.lowRate > 0
    ensures Handle(s, e).rate == 0 <==> Starves(s, e)
  {
    var c := Counted(s, e);
    if Closes(c, e.cfg, e.tUpd) {
      var past := e.tUpd - c.tStart;
      QuotientZero(c.txBytes * NSEC_PER_SEC, past);
    }
  }

  lemma QuotientZero(x: nat, d: nat)
    requires d > 0
    ensures x / d == 0 <==> x < d
  {
  }

  /** stat_init fires again exactly when some earlier packet of the run starves. */
  lemma {:induction false} ResetExactly(s: ThrottleStat, evs: seq<Event>)
    requires Configured(evs) && s.rate > 0
    ensures NeverReset(s, evs) <==> !StarvesBeforeLast(s, evs)
    decreases |evs|
  {
    if evs != [] {
      var s' := Handle(s, evs[0]);
      RateReachesZeroExactly(s, evs[0]);
      if s'.rate > 0 {
        ResetExactly(s', evs[1..]);
      }
    }
  }

  /** Some packet other than the last starves. */
  predicate StarvesBeforeLast(s: ThrottleStat, evs: seq<Event>)
    decreases |evs|
  {
    |evs| > 1 && (Starves(s, evs[0]) || StarvesBeforeLast(Handle(s, evs[0]), evs[1..]))
  }

  /** Each closed period measured at least one byte per second. */
  predicate Busy(s: ThrottleStat, evs: seq<Event>)
    decreases |evs|
  {
    evs != [] ==>
      var c := Counted(s, evs[0]);
      && (Closes(c, evs[0].cfg, evs[0].tUpd) ==> c.txBytes * NSEC_PER_SEC >= evs[0].tUpd - c.tStart)
      && Busy(Handle(s, evs[0]), evs[1..])
  }

  lemma {:induction false} NeverResetIsHarmless(s: ThrottleStat, evs: seq<Event>)
    requires NeverReset(s, evs)
    ensures AllHarmless(s, evs)
    decreases |evs|
  {
    if evs != [] {
      NeverResetIsHarmless(Handle(s, evs[0]), evs[1..]);
    }
  }

  /** On a busy slot stat_init fires at most once, for its first packet, so from
      zeroed statistics its whole life is one schedule. */
  lemma {:induction false} BusySlotResetsOnce(s: ThrottleStat, evs: seq<Event>)
    requires Configured(evs) && Busy(s, evs)
    ensures ResetAtMostOnce(s, evs)
    ensures s.rate > 0 ==> NeverReset(s, evs)
    ensures s.rate > 0 || s.tLast == 0 ==> AllHarmless(s, evs)
    decreases |evs|
  {
    if evs != [] {
      RateReachesZeroExactly(s, evs[0]);
      BusySlotResetsOnce(Handle(s, evs[0]), evs[1..]);
      NeverResetIsHarmless(Handle(s, evs[0]), evs[1..]);
    }
  }

  /** The closed periods without a byte after which an average is zero. */
  function SilentPeriods(rate: nat): nat {
    if rate == 0 then 0 else 1 + SilentPeriods(Ema(rate, 0))
  }

  /** A 64-byte packet without a socket. */
  function Lone(cfg: ThrottleCfg, tstamp: nat, at: nat): Event {
    Event(Pacer.Packet(64, tstamp, false, false), cfg, at, at, at)
  }

  /** A pause in which two such packets make less than a byte per second. */
  predicate Pause(cfg: ThrottleCfg, gap: nat) {
    gap > cfg.interval && gap > 128 * NSEC_PER_SEC
  }

  /** All packets have this configuration and leave, and the last before `booked`. */
  predicate EndsBefore(s: ThrottleStat, evs: seq<Event>, cfg: ThrottleCfg, booked: nat) {
    && (forall e :: e in evs ==> e.cfg == cfg)
    && |Released(s, evs)| == |evs| > 0 && Released(s, evs)[|evs| - 1].dep < booked
  }

  /** After a pause the packet joins the queue, and the average falls by an eighth. */
  lemma LoneStep(s: ThrottleStat, cfg: ThrottleCfg, now: nat, gap: nat)
    requires s.rate > 0 && s.tStart == now && s.txBytes <= 64 && Pause(cfg, gap)
    ensures var n := Handle(s, Lone(cfg, 0, now + gap));
      n.rate == Ema(s.rate, 0) && n.tStart == now + gap && n.txBytes == 0 && n.tLast >= s.tLast
    ensures |Outgoing(s, Lone(cfg, 0, now + gap))| == 1
  {
    QuotientZero((s.txBytes + 64) * NSEC_PER_SEC, gap);
  }

  /** `booked` lies beyond k + 1 pauses. */
  predicate Beyond(booked: nat, now: nat, k: nat, gap: nat) {
    booked > now + (k + 1) * gap
  }

  lemma OnePauseLess(booked: nat, now: nat, k: nat, gap: nat)
    requires Beyond(booked, now, k, gap)
    ensures booked > now + gap
    ensures k > 0 ==> Beyond(booked, now + gap, k - 1, gap)
  {
    assert (k + 1) * gap == k * gap + gap;
  }

  /** With the average at zero the packet is sent ahead of all that is booked. */
  lemma LoneReset(s: ThrottleStat, cfg: ThrottleCfg, at: nat, booked: nat)
    requires s.rate == 0 && booked <= s.tLast && at < booked && Delay(64, cfg.reqRate) < booked
    ensures EndsBefore(s, [Lone(cfg, 0, at)], cfg, booked) && !AllHarmless(s, [Lone(cfg, 0, at)])
  {
    var e := Lone(cfg, 0, at);
    assert Released(Handle(s, e), []) == [];
    assert [e][1..] == [];
    assert Released(s, [e]) == Outgoing(s, e) + [];
    assert !Harmless(s, e);
  }

  lemma LoneFirst(s: ThrottleStat, e: Event, cfg: ThrottleCfg, rest: seq<Event>, booked: nat)
    requires e.cfg == cfg && |Outgoing(s, e)| == 1
    requires EndsBefore(Handle(s, e), rest, cfg, booked)
    ensures EndsBefore(s, [e] + rest, cfg, booked)
    ensures Released(s, [e] + rest)[0] == Outgoing(s, e)[0]
    ensures !AllHarmless(Handle(s, e), rest) ==> !AllHarmless(s, [e] + rest)
  {
    assert ([e] + rest)[1..] == rest;
    assert Released(s, [e] + rest) == Outgoing(s, e) + Released(Handle(s, e), rest);
  }

  /** A slot booked beyond the silence sends a packet now and then, until its average is
      zero and the next packet leaves before what was booked. */
  lemma {:induction false} SilenceResets(s: ThrottleStat, cfg: ThrottleCfg, now: nat, gap: nat, booked: nat)
    returns (evs: seq<Event>)
    requires s.tStart == now && s.txBytes <= 64 && Pause(cfg, gap)
    requires booked <= s.tLast && Delay(64, cfg.reqRate) < booked
    requires Beyond(booked, now, SilentPeriods(s.rate), gap)
    ensures Timed(now, evs) && EndsBefore(s, evs, cfg, booked) && !AllHarmless(s, evs)
    decreases SilentPeriods(s.rate)
  {
    var e := Lone(cfg, 0, now + gap);
    OnePauseLess(booked, now, SilentPeriods(s.rate), gap);
    if s.rate == 0 {
      evs := [e];
      LoneReset(s, cfg, now + gap, booked);
    } else {
      LoneStep(s, cfg, now, gap);
      var rest := SilenceResets(Handle(s, e), cfg, now + gap, gap, booked);
      evs := [e] + rest;
      assert evs[1..] == rest;
      LoneFirst(s, e, cfg, rest, booked);
    }
  }

  /** Under every configuration with positive rates a slot can reach a harmful reset
      from zeroed statistics: its first packet asks for a departure far ahead, the
      average decays over a long silence, and a late packet leaves before the first. */
  lemma ResetBreaksPacing(cfg: ThrottleCfg)
    requires cfg.lowRate > 0 && cfg.reqRate > 0
    ensures exists evs: seq<Event> {:trigger Timed(0, evs)} ::
      Timed(0, evs) && |evs| > 1 && EndsBefore(ZERO_STAT, evs, cfg, Released(ZERO_STAT, evs)[0].dep)
      && !AllHarmless(ZERO_STAT, evs)
  {
    var gap := cfg.interval + 128 * NSEC_PER_SEC + 1;
    var far := (SilentPeriods(cfg.lowRate) + 1) * gap + 1 + Delay(64, cfg.reqRate);
    var first := Lone(cfg, far, 0);
    var s := Handle(ZERO_STAT, first);
    assert s == ThrottleStat(far, 0, cfg.lowRate, 64, 1);
    var rest := SilenceResets(s, cfg, 0, gap, far);
    var evs := [first] + rest;
    assert evs[1..] == rest;
    LoneFirst(ZERO_STAT, first, cfg, rest, far);
    assert Timed(0, evs);
  }
}
