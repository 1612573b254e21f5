/** Earliest-departure-time pacing, the arithmetic that tc_edt.c and bwm_tc.c
    share, and the theory of the departure schedules it produces. */
module Pacer {
  import opened Throttle

  /** What pacing reads of an skb: its length, its requested departure time,
      whether it has a socket and whether that socket is TCP. */
  datatype Packet = Packet(len: uint32, tstamp: nat, sock: bool, tcp: bool)

  function SendTime(tstamp: nat, now: nat): nat {
    if tstamp < now then now else tstamp
  }

  /** Transmission time. An eBPF division by zero yields zero (RFC 9669, section 4.1). */
  function Delay(len: nat, rate: nat): nat {
    if rate == 0 then 0 else len * NSEC_PER_SEC / rate
  }

  /** Non-TCP socket traffic queued more than ten seconds ahead is dropped. */
  predicate Drops(tLast: nat, p: Packet, now: nat) {
    p.sock && !p.tcp && tLast > now && tLast - now > MAX_DELAY_STAMP
  }

  function Departure(tLast: nat, p: Packet, now: nat, rate: nat): nat {
    var next := tLast + Delay(p.len, rate);
    if next <= SendTime(p.tstamp, now) then SendTime(p.tstamp, now) else next
  }

  /** The product is formed in 64 bits and never wraps, whatever the length. */
  lemma DelayFitsIn64Bits(len: uint32)
    ensures len * NSEC_PER_SEC < 0x1_0000_0000_0000_0000
  {
  }

  // ---------------------------------------------------------------------
  // Departure schedules
  // ---------------------------------------------------------------------

  /** One accepted packet: `send` is when it may leave at the earliest on its
      own account, `rate` the rate in force when it was stamped, `delay` its
      transmission time at that rate, `dep` the departure time it was given. */
  datatype Sent = Sent(len: nat, send: nat, rate: nat, delay: nat, dep: nat)

  /** The departure before packet k; `base` stands for the one before packet 0. */
  function Before(base: nat, a: seq<Sent>, k: nat): nat
    requires k <= |a|
  {
    if k == 0 then base else a[k - 1].dep
  }

  /** Each packet leaves as soon as both its own time and its predecessor allow. */
  ghost predicate Paced(base: nat, a: seq<Sent>) {
    forall k :: 0 <= k < |a| ==> PacedAt(base, a, k)
  }

  ghost predicate PacedAt(base: nat, a: seq<Sent>, k: nat)
    requires k < |a|
  {
    a[k].dep == Max(a[k].send, Before(base, a, k) + a[k].delay)
  }

  /** Every delay is at least the one rate r gives, rounded down as in `Delay`. */
  ghost predicate RatedBelow(a: seq<Sent>, r: nat) {
    forall k :: 0 <= k < |a| ==> RatedAt(a[k], r)
  }

  ghost predicate RatedAt(p: Sent, r: nat) {
    p.len * NSEC_PER_SEC < r * (p.delay + 1)
  }

  /** Any stretch of a schedule is a schedule from the departure before it. */
  lemma PacedStretch(base: nat, a: seq<Sent>, i: nat, j: nat)
    requires Paced(base, a) && i <= j <= |a|
    ensures Paced(Before(base, a, i), a[i..j])
    ensures Before(Before(base, a, i), a[i..j], j - i) == Before(base, a, j)
  {
    forall k | 0 <= k < j - i ensures PacedAt(Before(base, a, i), a[i..j], k) {
      assert PacedAt(base, a, i + k);
    }
  }

  lemma PacedAppend(base: nat, a: seq<Sent>, b: seq<Sent>)
    requires Paced(base, a) && Paced(Before(base, a, |a|), b)
    ensures Paced(base, a + b)
    ensures Before(base, a + b, |a + b|) == Before(Before(base, a, |a|), b, |b|)
  {
    forall k | 0 <= k < |a + b| ensures PacedAt(base, a + b, k) {
      if k < |a| {
        assert PacedAt(base, a, k);
      } else {
        assert PacedAt(Before(base, a, |a|), b, k - |a|);
      }
    }
  }

  /** Two pieces make one schedule exactly when each is one. */
  lemma PacedJoin(base: nat, a: seq<Sent>, b: seq<Sent>)
    ensures Paced(base, a + b) <==> Paced(base, a) && Paced(Before(base, a, |a|), b)
    ensures Before(base, a + b, |a + b|) == Before(Before(base, a, |a|), b, |b|)
  {
    if Paced(base, a) && Paced(Before(base, a, |a|), b) {
      PacedAppend(base, a, b);
    }
    if Paced(base, a + b) {
      PacedStretch(base, a + b, 0, |a|);
      PacedStretch(base, a + b, |a|, |a + b|);
      assert (a + b)[0..|a|] == a && (a + b)[|a|..|a + b|] == b;
      assert Before(base, a + b, |a|) == Before(base, a, |a|);
    }
  }

  function Bytes(a: seq<Sent>): nat {
    if a == [] then 0 else Bytes(a[..|a| - 1]) + a[|a| - 1].len
  }

  /** `bytes` sent as `n` packets between times `from` and `to` keep to rate r,
      with less than r byte-nanoseconds lost to rounding on each packet. */
  ghost predicate Within(r: nat, bytes: nat, from: int, to: int, n: int) {
    bytes * NSEC_PER_SEC <= r * (to - from) + n * (r - 1)
  }

  /** The packet was stamped under a positive rate. */
  predicate Rated(p: Sent) {
    p.rate > 0 && p.delay == Delay(p.len, p.rate)
  }

  lemma DelayIsRated(p: Sent, r: nat)
    requires Rated(p) && p.rate <= r
    ensures RatedAt(p, r)
  {
    assert p.len * NSEC_PER_SEC < p.rate * (p.delay + 1);
    assert p.rate * (p.delay + 1) <= r * (p.delay + 1);
  }

  /** The transmission time is the length at the rate, rounded down to a nanosecond. */
  lemma DelayExactly(len: nat, rate: nat)
    requires rate > 0
    ensures rate * Delay(len, rate) <= len * NSEC_PER_SEC < rate * (Delay(len, rate) + 1)
  {
  }

  lemma DelayIs(len: nat, rate: nat, d: nat)
    requires rate > 0 && rate * d <= len * NSEC_PER_SEC < rate * (d + 1)
    ensures Delay(len, rate) == d
  {
    DelayExactly(len, rate);
    if Delay(len, rate) < d {
      ScaleUp(rate, Delay(len, rate) + 1, d);
    } else if Delay(len, rate) > d {
      ScaleUp(rate, d + 1, Delay(len, rate));
    }
  }

  /** The packet was stamped at rate r or more, and waits for its predecessor only. */
  ghost predicate BusyAt(base: nat, a: seq<Sent>, r: nat, k: nat)
    requires k < |a|
  {
    Rated(a[k]) && r <= a[k].rate && a[k].send <= Before(base, a, k) + a[k].delay
  }

  /** The other side of the leaky bucket: while packets wait for each other only, the
      rate is used in full. */
  lemma {:induction false} BusyBound(base: nat, a: seq<Sent>, r: nat)
    requires Paced(base, a) && forall k :: 0 <= k < |a| ==> BusyAt(base, a, r, k)
    ensures base <= Before(base, a, |a|)
    ensures r * (Before(base, a, |a|) - base) <= Bytes(a) * NSEC_PER_SEC
  {
    if a != [] {
      var n := |a| - 1;
      var b, before, p := a[..n], Before(base, a, n), a[n];
      PacedStretch(base, a, 0, n);
      assert b == a[0..n];
      forall k | 0 <= k < n ensures BusyAt(base, b, r, k) {
        assert BusyAt(base, a, r, k);
      }
      BusyBound(base, b, r);
      assert Before(base, b, n) == before;
      assert PacedAt(base, a, n) && BusyAt(base, a, r, n);
      DelayExactly(p.len, p.rate);
      AtLeast(r, p.rate, p.delay, before - base);
    }
  }

  lemma AtLeast(r: nat, rate: nat, delay: nat, x: nat)
    requires r <= rate
    ensures r * delay <= rate * delay && r * (x + delay) == r * x + r * delay
  {
  }

  /** Leaky bucket: the bytes of a schedule are at most rate times elapsed time,
      up to one rounding per packet, and departures never go backwards. */
  lemma {:induction false} PacingBound(base: nat, a: seq<Sent>, r: nat)
    requires Paced(base, a) && RatedBelow(a, r)
    ensures base <= Before(base, a, |a|)
    ensures Within(r, Bytes(a), base, Before(base, a, |a|), |a|)
  {
    if a == [] {
      WithinNothing(r, base);
    } else {
      var n := |a| - 1;
      var b, before, last := a[..n], Before(base, a, n), a[n];
      PacedStretch(base, a, 0, n);
      assert b == a[0..n];
      PacingBound(base, b, r);
      assert PacedAt(base, a, n) && RatedAt(last, r);
      WithinStep(r, Bytes(b), base, before, n, last);
    }
  }

  lemma WithinNothing(r: nat, t: int)
    ensures Within(r, 0, t, t, 0)
  {
  }

  lemma WithinStep(r: nat, bytes: nat, from: nat, before: nat, n: nat, last: Sent)
    requires Within(r, bytes, from, before, n)
    requires RatedAt(last, r) && last.delay <= last.dep - before
    ensures Within(r, bytes + last.len, from, last.dep, n + 1)
  {
    ScaleUp(r, last.delay, last.dep - before);
    assert r * (last.dep - from) == r * (before - from) + r * (last.dep - before);
    assert (n + 1) * (r - 1) == n * (r - 1) + (r - 1);
  }

  /** The same bound between any two packets of a run. */
  lemma PacingBoundBetween(base: nat, a: seq<Sent>, r: nat, i: nat, j: nat)
    requires Paced(base, a) && RatedBelow(a, r)
    requires i <= j <= |a|
    ensures Before(base, a, i) <= Before(base, a, j)
    ensures Within(r, Bytes(a[i..j]), Before(base, a, i), Before(base, a, j), j - i)
  {
    PacedStretch(base, a, i, j);
    PacingBound(Before(base, a, i), a[i..j], r);
  }

  lemma {:induction false} DeparturesGrow(base: nat, a: seq<Sent>, i: nat, j: nat)
    requires Paced(base, a) && i <= j <= |a|
    ensures Before(base, a, i) <= Before(base, a, j)
    decreases j
  {
    if i < j {
      assert PacedAt(base, a, j - 1);
      DeparturesGrow(base, a, i, j - 1);
    }
  }

  lemma ScaleUp(r: nat, x: int, y: int)
    requires x <= y
    ensures r * x <= r * y
  {
  }

  /** A schedule is admissible when no packet leaves before its own time, nor
      sooner after its predecessor than its transmission time. */
  ghost predicate Admissible(base: nat, a: seq<Sent>, e: seq<nat>) {
    |e| == |a| &&
    forall k :: 0 <= k < |a| ==> AdmissibleAt(base, a, e, k)
  }

  ghost predicate AdmissibleAt(base: nat, a: seq<Sent>, e: seq<nat>, k: nat)
    requires |e| == |a| && k < |a|
  {
    e[k] >= a[k].send && e[k] >= (if k == 0 then base else e[k - 1]) + a[k].delay
  }

  function Departures(a: seq<Sent>): (e: seq<nat>)
    ensures |e| == |a| && forall k :: 0 <= k < |a| ==> e[k] == a[k].dep
  {
    seq(|a|, k requires 0 <= k < |a| => a[k].dep)
  }

  /** The pacer delays no packet longer than its rate makes necessary: its own
      departures are admissible, and every admissible schedule is at least as late. */
  lemma LeastSchedule(base: nat, a: seq<Sent>, e: seq<nat>)
    requires Paced(base, a)
    ensures Admissible(base, a, Departures(a))
    ensures Admissible(base, a, e) ==> forall k :: 0 <= k < |a| ==> a[k].dep <= e[k]
  {
    forall k | 0 <= k < |a| ensures AdmissibleAt(base, a, Departures(a), k) {
      assert PacedAt(base, a, k);
    }
    if Admissible(base, a, e) {
      forall k | 0 <= k < |a| ensures a[k].dep <= e[k] {
        NoLaterThan(base, a, e, k);
      }
    }
  }

  lemma {:induction false} NoLaterThan(base: nat, a: seq<Sent>, e: seq<nat>, k: nat)
    requires Paced(base, a) && Admissible(base, a, e) && k < |a|
    ensures a[k].dep <= e[k]
  {
    assert PacedAt(base, a, k) && AdmissibleAt(base, a, e, k);
    if k > 0 {
      NoLaterThan(base, a, e, k - 1);
    }
  }

  // ---------------------------------------------------------------------
  // What leaves within a span of time
  // ---------------------------------------------------------------------

  predicate Leaves(p: Sent, t0: nat, t1: nat) {
    t0 < p.dep <= t1
  }

  /** Bytes of a schedule that depart after t0 and by t1. */
  function BytesIn(a: seq<Sent>, t0: nat, t1: nat): nat {
    if a == [] then 0
    else BytesIn(a[..|a| - 1], t0, t1) + if Leaves(a[|a| - 1], t0, t1) then a[|a| - 1].len else 0
  }

  function PacketsIn(a: seq<Sent>, t0: nat, t1: nat): nat {
    if a == [] then 0
    else PacketsIn(a[..|a| - 1], t0, t1) + if Leaves(a[|a| - 1], t0, t1) then 1 else 0
  }

  /** The highest rate under which any of these was stamped. */
  function TopRate(a: seq<Sent>, t0: nat, t1: nat): (r: nat)
    ensures forall k :: 0 <= k < |a| && Leaves(a[k], t0, t1) ==> a[k].rate <= r
  {
    if a == [] then 0
    else Max(TopRate(a[..|a| - 1], t0, t1), if Leaves(a[|a| - 1], t0, t1) then a[|a| - 1].rate else 0)
  }

  lemma {:induction false} TopRateAtMost(a: seq<Sent>, t0: nat, t1: nat, r: nat)
    requires forall k :: 0 <= k < |a| && Leaves(a[k], t0, t1) ==> a[k].rate <= r
    ensures TopRate(a, t0, t1) <= r
  {
    if a != [] {
      TopRateAtMost(a[..|a| - 1], t0, t1, r);
    }
  }

  lemma {:induction false} PacketsInNone(a: seq<Sent>, t0: nat, t1: nat)
    requires PacketsIn(a, t0, t1) == 0
    ensures BytesIn(a, t0, t1) == TopRate(a, t0, t1) == 0
  {
    if a != [] {
      PacketsInNone(a[..|a| - 1], t0, t1);
    }
  }

  /** Every packet that leaves in the span is rated at most r and no longer than maxLen. */
  ghost predicate SpanRated(a: seq<Sent>, t0: nat, t1: nat, r: nat, maxLen: nat) {
    forall k :: 0 <= k < |a| && Leaves(a[k], t0, t1) ==> RatedAt(a[k], r) && a[k].len <= maxLen
  }

  /** With the last departure at `last`: so much has left by then, n packets of it. */
  ghost predicate SpanWithin(r: nat, bytes: nat, n: nat, last: nat, t0: nat, t1: nat, maxLen: nat) {
    if last <= t0 then bytes == 0 && n == 0
    else bytes * NSEC_PER_SEC <= r * (Min(last, t1) - t0) + n * (r - 1) + maxLen * NSEC_PER_SEC
  }

  lemma {:induction false} SpanGrows(base: nat, a: seq<Sent>, r: nat, t0: nat, t1: nat, maxLen: nat)
    requires Paced(base, a) && t0 <= t1 && r > 0 && SpanRated(a, t0, t1, r, maxLen)
    ensures SpanWithin(r, BytesIn(a, t0, t1), PacketsIn(a, t0, t1), Before(base, a, |a|), t0, t1, maxLen)
  {
    if a == [] {
      ScaleUp(r, 0, if base <= t0 then 0 else Min(base, t1) - t0);
    } else {
      var n := |a| - 1;
      var b, before, p := a[..n], Before(base, a, n), a[n];
      PacedStretch(base, a, 0, n);
      assert b == a[0..n];
      SpanGrows(base, b, r, t0, t1, maxLen);
      assert PacedAt(base, a, n);
      assert Before(base, b, n) == before;
      SpanStep(r, BytesIn(b, t0, t1), PacketsIn(b, t0, t1), before, p, t0, t1, maxLen);
    }
  }

  lemma SpanStep(r: nat, bytes: nat, n: nat, before: nat, p: Sent, t0: nat, t1: nat, maxLen: nat)
    requires r > 0 && t0 <= t1 && before + p.delay <= p.dep
    requires SpanWithin(r, bytes, n, before, t0, t1, maxLen)
    requires Leaves(p, t0, t1) ==> RatedAt(p, r) && p.len <= maxLen
    ensures if Leaves(p, t0, t1) then SpanWithin(r, bytes + p.len, n + 1, p.dep, t0, t1, maxLen)
            else SpanWithin(r, bytes, n, p.dep, t0, t1, maxLen)
  {
    if p.dep <= t0 {
    } else if p.dep > t1 {
      ScaleUp(r, if before <= t0 then 0 else Min(before, t1) - t0, t1 - t0);
    } else if before <= t0 {
      ScaleUp(r, 0, p.dep - t0);
    } else {
      SpanAdds(r, bytes, n, before - t0, p, p.dep - t0, maxLen * NSEC_PER_SEC);
    }
  }

  lemma SpanAdds(r: nat, bytes: nat, n: nat, x: nat, p: Sent, y: nat, slack: nat)
    requires bytes * NSEC_PER_SEC <= r * x + n * (r - 1) + slack
    requires RatedAt(p, r) && x + p.delay <= y
    ensures (bytes + p.len) * NSEC_PER_SEC <= r * y + (n + 1) * (r - 1) + slack
  {
    ScaleUp(r, x + p.delay, y);
    assert r * (x + p.delay) == r * x + r * p.delay;
    assert r * (p.delay + 1) == r * p.delay + r;
    assert (n + 1) * (r - 1) == n * (r - 1) + (r - 1);
  }

  /** Whatever a schedule sends before or after, its bytes that depart within a span of
      time keep to the highest rate under which they were stamped, up to one rounding
      a packet, and one packet that an idle sender may release at once. */
  lemma WindowBound(base: nat, a: seq<Sent>, t0: nat, t1: nat, maxLen: nat)
    requires Paced(base, a) && t0 <= t1
    requires forall k :: 0 <= k < |a| && Leaves(a[k], t0, t1) ==> Rated(a[k]) && a[k].len <= maxLen
    ensures var r := TopRate(a, t0, t1);
      BytesIn(a, t0, t1) * NSEC_PER_SEC <= r * (t1 - t0) + PacketsIn(a, t0, t1) * (r - 1) + maxLen * NSEC_PER_SEC
  {
    var r := TopRate(a, t0, t1);
    if PacketsIn(a, t0, t1) == 0 {
      PacketsInNone(a, t0, t1);
    } else {
      forall k | 0 <= k < |a| && Leaves(a[k], t0, t1) ensures RatedAt(a[k], r) {
        DelayIsRated(a[k], r);
      }
      SomeLeaves(a, t0, t1);
      SpanGrows(base, a, r, t0, t1, maxLen);
      var last := Before(base, a, |a|);
      ScaleUp(r, if last <= t0 then 0 else Min(last, t1) - t0, t1 - t0);
    }
  }

  lemma {:induction false} SomeLeaves(a: seq<Sent>, t0: nat, t1: nat)
    requires PacketsIn(a, t0, t1) > 0
    ensures exists k :: 0 <= k < |a| && Leaves(a[k], t0, t1)
  {
    if !Leaves(a[|a| - 1], t0, t1) {
      SomeLeaves(a[..|a| - 1], t0, t1);
    }
  }
}
