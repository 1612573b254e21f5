/** Conservation, bounds and progress of the allocator. */
module AllocatorTheorems {
  import opened Throttle
  import opened Allocator

  // ---------------------------------------------------------------------
  // Phase 2 serves one kind of instance only
  // ---------------------------------------------------------------------

  lemma {:induction false} UnskippedNeed(t: Table, i: nat, n: nat)
    requires t.Settled() && i < n <= |t.cfg| && t.status[i] == NEED && !Skips(t, i)
    ensures Count(t, Skipped, n) < Count(t, Need, n)
    decreases n
  {
    if n == i + 1 {
      CountsAdd(t, i);
    } else {
      UnskippedNeed(t, i, n - 1);
    }
  }

  /** A NEED and a REACHED instance are never both granted bandwidth in one round. */
  lemma OneKindServed(t: Table, remain: int, i: nat, j: nat)
    requires t.Settled() && i < |t.cfg| && j < |t.cfg|
    requires Grant(t, remain, i) > 0 && Grant(t, remain, j) > 0
    ensures t.status[i] == t.status[j]
  {
    if t.status[i] == NEED && t.status[j] == REACHED {
      NotBoth(t, i, j);
    }
    if t.status[j] == NEED && t.status[i] == REACHED {
      NotBoth(t, j, i);
    }
  }

  lemma NotBoth(t: Table, i: nat, j: nat)
    requires t.Settled() && i < |t.cfg| && j <= |t.cfg|
    requires t.status[i] == NEED && !Skips(t, i)
    ensures Count(t, Skipped, j) < All(t, Need)
  {
    UnskippedNeed(t, i, |t.cfg|);
    CountMonotone(t, Skipped, j, |t.cfg|);
  }

  // ---------------------------------------------------------------------
  // Upper bound
  // ---------------------------------------------------------------------

  lemma {:induction false} NothingToGrant(t: Table, remain: int, n: nat)
    requires t.Settled() && n <= |t.cfg| && remain <= 0
    ensures Granted(t, remain, n) == 0
  {
    if n > 0 {
      NothingToGrant(t, remain, n - 1);
    }
  }

  predicate Open(t: Table, i: nat)
    requires t.Valid() && i < |t.cfg|
  {
    t.status[i] == NEED && !Skips(t, i)
  }

  /** q for each of the first n instances that needs bandwidth and is not passed over. */
  function OpenQuotas(t: Table, q: nat, n: nat): (sum: nat)
    requires t.Valid() && n <= |t.cfg|
  {
    if n == 0 then 0 else OpenQuotas(t, q, n - 1) + if Open(t, n - 1) then q else 0
  }

  lemma {:induction false} OpenQuotasAre(t: Table, q: nat, n: nat)
    requires t.Valid() && n <= |t.cfg|
    ensures OpenQuotas(t, q, n) == (Count(t, Need, n) - Count(t, Skipped, n)) * q
  {
    if n > 0 {
      OpenQuotasAre(t, q, n - 1);
      OneMore(Count(t, Need, n - 1) - Count(t, Skipped, n - 1), q);
    }
  }

  lemma OneMore(c: int, q: int)
    ensures (c + 1) * q == c * q + q
  {
  }

  /** While some NEED instance is not passed over, each grant is a NEED grant, and
      shares with at least as many as are left in the end. */
  lemma GrantWhileOpen(t: Table, remain: nat, i: nat, n: nat, open: nat)
    requires t.Settled() && i < n <= |t.cfg|
    requires open == All(t, Need) - Count(t, Skipped, n) && open >= 1
    ensures Grant(t, remain, i) <= if Open(t, i) then Whole(remain, open) + 1 else 0
  {
    CountMonotone(t, Skipped, i, n);
    if Open(t, i) && remain > 0 {
      SmallerShare(remain, open, All(t, Need) - Count(t, Skipped, i));
    }
  }

  lemma SmallerShare(x: nat, d: nat, e: nat)
    requires 0 < d <= e
    ensures Whole(x, e) <= Whole(x, d)
  {
    var q := Whole(x, e);
    ShareOut(x, d);
    ShareOut(x, e);
    Scaled(d, e, q);
    CancelLess(d, q, Whole(x, d) + 1);
  }

  lemma CancelLess(d: nat, x: int, y: int)
    requires d > 0 && d * x < d * y
    ensures x < y
  {
  }

  lemma {:induction false} NeedGrants(t: Table, remain: nat, n: nat, q: nat)
    requires t.Settled() && n <= |t.cfg|
    requires forall i :: 0 <= i < n ==> Grant(t, remain, i) <= if Open(t, i) then q + 1 else 0
    ensures Granted(t, remain, n) <= Grants(t, remain, n) + OpenQuotas(t, q, n)
  {
    if n > 0 {
      NeedGrants(t, remain, n - 1, q);
    }
  }

  /** The whole part of one REACHED grant in a class. */
  function Quota(t: Table, remain: nat, prio: nat): nat
    requires t.Valid() && prio <= 2
  {
    if All(t, ReachedIn(prio)) == 0 then 0 else Whole(ClassShare(t, remain, prio), All(t, ReachedIn(prio)))
  }

  /** The quotas of the REACHED instances of a class among the first n. */
  function ClassQuotas(t: Table, remain: nat, prio: nat, n: nat): nat
    requires t.Valid() && n <= |t.cfg| && prio <= 2
  {
    if n == 0 then 0
    else ClassQuotas(t, remain, prio, n - 1) + if Is(t, ReachedIn(prio), n - 1) then Quota(t, remain, prio) else 0
  }

  function Quotas(t: Table, remain: nat, n: nat): nat
    requires t.Valid() && n <= |t.cfg|
  {
    ClassQuotas(t, remain, 0, n) + ClassQuotas(t, remain, 1, n) + ClassQuotas(t, remain, 2, n)
  }

  lemma {:induction false} ClassQuotasAre(t: Table, remain: nat, prio: nat, n: nat)
    requires t.Valid() && n <= |t.cfg| && prio <= 2
    ensures ClassQuotas(t, remain, prio, n) == Count(t, ReachedIn(prio), n) * Quota(t, remain, prio)
  {
    if n > 0 {
      ClassQuotasAre(t, remain, prio, n - 1);
      OneMore(Count(t, ReachedIn(prio), n - 1), Quota(t, remain, prio));
    }
  }

  lemma {:induction false} ClassQuotasGrow(t: Table, remain: nat, prio: nat, m: nat, n: nat)
    requires t.Valid() && m <= n <= |t.cfg| && prio <= 2
    ensures ClassQuotas(t, remain, prio, m) <= ClassQuotas(t, remain, prio, n)
    decreases n
  {
    if m < n {
      ClassQuotasGrow(t, remain, prio, m, n - 1);
    }
  }

  /** Once all are passed over, only REACHED grants have been made. */
  lemma {:induction false} ReachedGrants(t: Table, remain: nat, m: nat, n: nat)
    requires t.Settled() && m <= n <= |t.cfg|
    requires Count(t, Skipped, n) == All(t, Need)
    ensures Granted(t, remain, m) <= Grants(t, remain, m) + Quotas(t, remain, m)
  {
    if m > 0 {
      ReachedGrants(t, remain, m - 1, n);
      GrantOnceClosed(t, remain, m - 1, n);
    }
  }

  lemma GrantOnceClosed(t: Table, remain: nat, i: nat, n: nat)
    requires t.Settled() && i < n <= |t.cfg|
    requires Count(t, Skipped, n) == All(t, Need)
    ensures Grant(t, remain, i) <=
      if t.status[i] == REACHED then Quota(t, remain, t.cfg[i].priority) + 1 else 0
  {
    if Open(t, i) {
      UnskippedNeed(t, i, n);
      CountMonotone(t, Need, n, |t.cfg|);
      assert false;
    }
    if t.status[i] == REACHED {
      CountsAtReached(t, i);
    }
  }

  lemma ShareOut(x: nat, d: nat)
    requires d > 0
    ensures d * Whole(x, d) <= x < d * (Whole(x, d) + 1)
  {
  }

  lemma Scaled(a: int, b: int, q: nat)
    requires a <= b
    ensures a * q <= b * q && q * a <= q * b
  {
  }

  /** The percentage of a class that has REACHED instances to serve. */
  function Weight(t: Table, prio: nat): nat
    requires t.Valid() && prio <= 2
  {
    if All(t, ReachedIn(prio)) > 0 then Percent(prio) else 0
  }

  /** One class hands out at most its share, and with the rounding of each grant
      more than its share. */
  lemma ClassBounds(t: Table, remain: nat, prio: nat)
    requires t.Settled() && prio <= 2
    ensures Divide(t) * ClassQuotas(t, remain, prio, |t.cfg|) <= remain * Weight(t, prio)
    ensures All(t, ReachedIn(prio)) > 0 ==>
      remain * Weight(t, prio) < Divide(t) * (ClassQuotas(t, remain, prio, |t.cfg|) + All(t, ReachedIn(prio)))
  {
    ClassQuotasAre(t, remain, prio, |t.cfg|);
    if All(t, ReachedIn(prio)) > 0 {
      TwoDivisions(remain * Percent(prio), Divide(t), All(t, ReachedIn(prio)));
    } else {
      ScaledByZero(Divide(t), remain);
    }
  }

  lemma ScaledByZero(d: nat, r: nat)
    ensures d * 0 == r * 0
  {
  }

  lemma TwoDivisions(y: nat, d: nat, c: nat)
    requires d > 0 && c > 0
    ensures var sum := c * Whole(Whole(y, d), c);
      d * sum <= y < d * (sum + c)
  {
    var x := Whole(y, d);
    var q := Whole(x, c);
    ShareOut(y, d);
    ShareOut(x, c);
    Scaled(c * q, x, d);
    OneMore(q, c);
    Scaled(x + 1, c * q + c, d);
  }

  lemma ThreeShares(d: nat, x: nat, a: nat, b: nat, c: nat, pa: nat, pb: nat, pc: nat)
    requires d > 0 && d * a <= x * pa && d * b <= x * pb && d * c <= x * pc
    requires pa + pb + pc <= d
    ensures a + b + c <= x
  {
    assert d * (a + b + c) == d * a + d * b + d * c;
    assert x * (pa + pb + pc) == x * pa + x * pb + x * pc;
    Scaled(pa + pb + pc, d, x);
    assert d * (x + 1) == x * d + d;
    CancelLess(d, a + b + c, x + 1);
  }

  lemma ThreeCovers(d: nat, x: nat, a: nat, b: nat, c: nat, pa: nat, pb: nat, pc: nat)
    requires d > 0 && pa + pb + pc == d
    requires if pa == 0 then a == 0 else x * pa < d * a
    requires if pb == 0 then b == 0 else x * pb < d * b
    requires if pc == 0 then c == 0 else x * pc < d * c
    ensures x < a + b + c
  {
    assert d * (a + b + c) == d * a + d * b + d * c;
    assert x * d == x * pa + x * pb + x * pc;
    CancelLess(d, x, a + b + c);
  }

  /** The three classes together never hand out more than the remainder. */
  lemma QuotasFit(t: Table, remain: nat)
    requires t.Settled()
    ensures Quotas(t, remain, |t.cfg|) <= remain
  {
    var n := |t.cfg|;
    if Divide(t) > 0 {
      ClassBounds(t, remain, 0);
      ClassBounds(t, remain, 1);
      ClassBounds(t, remain, 2);
      ThreeShares(Divide(t), remain,
        ClassQuotas(t, remain, 0, n), ClassQuotas(t, remain, 1, n), ClassQuotas(t, remain, 2, n),
        Weight(t, 0), Weight(t, 1), Weight(t, 2));
    } else {
      ClassQuotasAre(t, remain, 0, n);
      ClassQuotasAre(t, remain, 1, n);
      ClassQuotasAre(t, remain, 2, n);
    }
  }

  lemma GrantedFitsWhileOpen(t: Table, remain: nat, n: nat)
    requires t.Settled() && n <= |t.cfg| && Count(t, Skipped, n) < All(t, Need)
    ensures Granted(t, remain, n) <= remain + Grants(t, remain, n)
  {
    var open := All(t, Need) - Count(t, Skipped, n);
    var q := Whole(remain, open);
    CountMonotone(t, Need, n, |t.cfg|);
    forall i | 0 <= i < n ensures Grant(t, remain, i) <= if Open(t, i) then q + 1 else 0 {
      GrantWhileOpen(t, remain, i, n, open);
    }
    NeedGrants(t, remain, n, q);
    ShareOut(remain, open);
    OpenQuotasFit(t, q, n, open, remain);
  }

  lemma OpenQuotasFit(t: Table, q: nat, n: nat, open: nat, x: nat)
    requires t.Valid() && n <= |t.cfg| && Count(t, Need, n) - Count(t, Skipped, n) <= open
    requires open * q <= x
    ensures OpenQuotas(t, q, n) <= x
  {
    OpenQuotasAre(t, q, n);
    Scaled(Count(t, Need, n) - Count(t, Skipped, n), open, q);
  }

  lemma GrantedFitsOnceClosed(t: Table, remain: nat, n: nat)
    requires t.Settled() && n <= |t.cfg| && Count(t, Skipped, n) == All(t, Need)
    ensures Granted(t, remain, n) <= remain + Grants(t, remain, n)
  {
    ReachedGrants(t, remain, n, n);
    ClassQuotasGrow(t, remain, 0, n, |t.cfg|);
    ClassQuotasGrow(t, remain, 1, n, |t.cfg|);
    ClassQuotasGrow(t, remain, 2, n, |t.cfg|);
    QuotasFit(t, remain);
  }

  /** However far phase 2 gets, it hands out at most the remainder and one unit of
      rounding for each grant, although the number of sharers changes as it runs. */
  lemma GrantedFits(t: Table, remain: int, n: nat)
    requires t.Settled() && n <= |t.cfg|
    ensures Granted(t, remain, n) <= Max(remain, 0) + Grants(t, remain, n)
  {
    CountsAdd(t, n);
    CountMonotone(t, Need, n, |t.cfg|);
    if remain <= 0 {
      NothingToGrant(t, remain, n);
    } else if Count(t, Skipped, n) < All(t, Need) {
      GrantedFitsWhileOpen(t, remain, n);
    } else {
      GrantedFitsOnceClosed(t, remain, n);
    }
  }

  lemma GrantsOnlyActive(t: Table, remain: int, i: nat)
    requires t.Settled() && i < |t.cfg|
    ensures t.stat[i].rate == 0 ==> Grant(t, remain, i) == 0
  {
  }

  /** What phase 2 adds to the first n requests is what it grants them: every grant
      goes to an active instance. */
  lemma {:induction false} ServedSum(t: Table, remain: int, stop: nat, n: nat)
    requires t.Settled() && n <= |t.cfg| && stop <= |t.cfg|
    ensures SumReq(Served(t, remain, stop), n) == SumReq(t, n) + Granted(t, remain, Min(n, stop))
  {
    if n > 0 {
      ServedSum(t, remain, stop, n - 1);
      GrantsOnlyActive(t, remain, n - 1);
    }
  }

  /** Round conservation: after phase 2 the requests of the active instances add
      up to at most the total bandwidth, or to what phase 1 left them at if that
      is more, plus one for each grant made. */
  lemma RoundConservation(t: Table, totalBw: nat)
    requires t.Settled()
    ensures ActiveSum(t) <= ActiveSum(Phase2(t, totalBw))
         <= Max(totalBw, ActiveSum(t)) + Grants(t, Remain(t, totalBw), Stop(t, totalBw))
  {
    var remain, stop := Remain(t, totalBw), Stop(t, totalBw);
    ServedSum(t, remain, stop, |t.cfg|);
    GrantedFits(t, remain, stop);
  }

  // ---------------------------------------------------------------------
  // Bounds kept by every round
  // ---------------------------------------------------------------------

  lemma DeltaIsPace(reqRate: nat, pace: nat)
    requires pace > 0
    ensures var d := DeltaBw(reqRate, pace);
      d * pace <= reqRate < (d + 1) * pace
  {
  }

  /** A request is lowered by its pace-th part, rounded down, or to the floor. */
  predicate LoweredByPace(from: nat, to: int, floor: nat, pace: nat) {
    && floor <= to <= from && (from - to) * pace <= from
    && (to == floor || from < (from - to + 1) * pace)
  }

  /** Or raised by it: to the floor if that is beyond the raise, to the low rate if
      that is within it, else by exactly that part. */
  predicate RaisedByPace(from: nat, to: int, floor: nat, low: nat, pace: nat) {
    || (to == floor && (floor - from) * pace > from)
    || (to == low && floor <= low && (low - from) * pace <= from)
    || (to == low < floor && (floor - from) * pace <= from)
    || (from <= to < low && floor <= to && (to - from) * pace <= from < (to - from + 1) * pace)
  }

  lemma MovedByPace(p: Params, curRate: nat, reqRate: nat, lowRate: nat)
    requires p.pace > 0
    ensures var (n, status) := AllocMinRate(p, curRate, reqRate, lowRate);
      if curRate * p.den < reqRate * p.num then
        status == DOWN &&
        if p.minBandwidth <= reqRate then LoweredByPace(reqRate, n, p.minBandwidth, p.pace) else n == p.minBandwidth
      else
        RaisedByPace(reqRate, n, p.minBandwidth, lowRate, p.pace) && status == if n < lowRate then NEED else REACHED
  {
    var d := DeltaBw(reqRate, p.pace);
    DeltaIsPace(reqRate, p.pace);
    var n := AllocMinRate(p, curRate, reqRate, lowRate).0;
    if curRate * p.den < reqRate * p.num {
      if p.minBandwidth <= reqRate {
        Scaled(reqRate - n, d, p.pace);
      }
    } else if reqRate + d < p.minBandwidth {
      Scaled(d + 1, p.minBandwidth - reqRate, p.pace);
    } else if reqRate + d >= lowRate {
      Scaled(lowRate - reqRate, d, p.pace);
      Scaled(p.minBandwidth - reqRate, d, p.pace);
    }
  }

  /** What phase 1 does to one instance: with the floor not above the request, one that
      uses less than the ratio is lowered by the pace, any other active one raised by it
      and marked by whether it got to its low rate, and an inactive one left alone. */
  lemma StepIsPace(t: Table, p: Params, i: nat)
    requires t.Valid() && p.pace > 0 && i < |t.cfg|
    ensures var c, u, n, status := t.cfg[i], t.stat[i], Phase1(t, p).cfg[i], Phase1(t, p).status[i];
      && n == c.(reqRate := n.reqRate)
      && if u.rate == 0 then n == c && status == DOWN
         else if u.rate * p.den < c.reqRate * p.num then
           status == DOWN &&
           if p.minBandwidth <= c.reqRate then LoweredByPace(c.reqRate, n.reqRate, p.minBandwidth, p.pace)
           else n.reqRate == p.minBandwidth
         else
           && RaisedByPace(c.reqRate, n.reqRate, p.minBandwidth, c.lowRate, p.pace)
           && status == if n.reqRate < c.lowRate then NEED else REACHED
  {
    MovedByPace(p, t.stat[i].rate, t.cfg[i].reqRate, t.cfg[i].lowRate);
  }

  /** Traffic counts in one round only: an instance is active when the kernel measured
      some, in a sampling period that the last round has not seen. Any other keeps its
      request through the round. */
  lemma SeenPeriodIsIdle(t: Table, stats: seq<ThrottleStat>, cfgs: seq<ThrottleCfg>, p: Params, totalBw: nat, i: nat)
    requires |t.stat| == |stats| == |cfgs| && i < |stats| && p.pace > 0
    requires forall c :: c in cfgs ==> c.priority <= 2
    ensures var r := Lookup(t, stats, cfgs);
      && r.Valid() && r.cfg == cfgs
      && (r.stat[i].rate > 0 <==>
           stats[i].rate > 0 && (stats[i].tStart == 0 || stats[i].tStart != t.stat[i].tStart))
      && (r.stat[i].rate > 0 ==> r.stat[i] == stats[i])
      && r.stat[i].tStart == stats[i].tStart
      && (r.stat[i].rate == 0 ==> Round(r, p, totalBw).cfg[i] == cfgs[i])
  {
  }

  /** A NEED instance is passed over exactly if it uses less than seven tenths of its
      request; any other, while anything remains, is due some. */
  lemma PassedOverExactly(t: Table, remain: nat, i: nat)
    requires t.Settled() && i < |t.cfg| && t.status[i] == NEED && remain > 0
    ensures Grant(t, remain, i) == 0 <==> 10 * (t.stat[i].rate + 1) <= 7 * t.cfg[i].reqRate
  {
    if !Skips(t, i) {
      CountsAtNeed(t, i);
    }
  }

  /** Phase 1 leaves an active instance below the floor exactly when its low rate
      is below the floor and caps the raise. */
  lemma FloorExactly(p: Params, curRate: nat, reqRate: nat, lowRate: nat)
    requires p.pace > 0
    ensures AllocMinRate(p, curRate, reqRate, lowRate).0 < p.minBandwidth <==>
      && curRate * p.den >= reqRate * p.num
      && lowRate < p.minBandwidth <= reqRate + DeltaBw(reqRate, p.pace)
  {
  }

  /** No active instance ends a round below the floor if its low rate is not below it. */
  lemma RoundKeepsFloor(t: Table, p: Params, totalBw: nat, i: nat)
    requires t.Valid() && p.pace > 0 && i < |t.cfg|
    requires t.stat[i].rate > 0 && t.cfg[i].lowRate >= p.minBandwidth
    ensures Round(t, p, totalBw).cfg[i].reqRate >= p.minBandwidth
  {
    FloorExactly(p, t.stat[i].rate, t.cfg[i].reqRate, t.cfg[i].lowRate);
  }

  /** Under a positive floor an active instance with a positive low rate, however
      small, ends the round with a positive request. */
  lemma RoundStaysPositive(t: Table, p: Params, totalBw: nat, i: nat)
    requires t.Valid() && p.pace > 0 && p.minBandwidth > 0 && i < |t.cfg|
    requires t.stat[i].rate > 0 && t.cfg[i].lowRate > 0
    ensures Round(t, p, totalBw).cfg[i].reqRate > 0
  {
  }

  lemma ShareAtMost(x: nat, n: nat)
    requires n > 0
    ensures Whole(x, n) <= x
  {
    SmallerShare(x, 1, n);
  }

  /** One grant is at most the remainder and one. */
  lemma GrantAtMost(t: Table, remain: int, i: nat)
    requires t.Settled() && i < |t.cfg|
    ensures Grant(t, remain, i) <= Max(remain, 0) + 1
  {
    if remain > 0 && Open(t, i) {
      CountsAtNeed(t, i);
      ShareAtMost(remain, All(t, Need) - Count(t, Skipped, i));
    } else if remain > 0 && t.status[i] == REACHED {
      var prio := t.cfg[i].priority;
      CountsAtReached(t, i);
      ShareAtMost(ClassShare(t, remain, prio), All(t, ReachedIn(prio)));
      PartAtMost(remain, Percent(prio), Divide(t));
    }
  }

  lemma PartAtMost(x: nat, part: nat, whole: nat)
    requires part <= whole && whole > 0
    ensures Whole(x * part, whole) <= x
  {
    Scaled(part, whole, x);
    ShareOut(x * part, whole);
    CancelLess(whole, Whole(x * part, whole), x + 1);
  }

  /** The quantities of a round, with every rate written by the control plane and the
      total at most b: requests never grow beyond 2b + 1, round after round. */
  lemma RequestsStayBounded(t: Table, p: Params, totalBw: nat, b: nat, i: nat)
    requires t.Valid() && p.pace > 0 && i < |t.cfg|
    requires totalBw <= b && p.minBandwidth <= b && t.cfg[i].lowRate <= b
    requires t.cfg[i].reqRate <= 2 * b + 1
    ensures Round(t, p, totalBw).cfg[i].reqRate <= 2 * b + 1
    ensures Phase1(t, p).status[i] != DOWN ==> Phase1(t, p).cfg[i].reqRate <= b
  {
    var s := Phase1(t, p);
    var remain := Remain(s, totalBw);
    GrantAtMost(s, remain, i);
    if s.status[i] == DOWN {
      assert Grant(s, remain, i) == 0;
    }
  }

  lemma {:induction false} SumAtMost(t: Table, b: nat, n: nat)
    requires t.Valid() && n <= |t.cfg| <= MAX_MAP_SIZE
    requires forall i :: 0 <= i < n ==> t.cfg[i].reqRate <= b
    ensures SumReq(t, n) <= n * b
  {
    if n > 0 {
      SumAtMost(t, b, n - 1);
      OneMore(n - 1, b);
    }
  }

  /** So for rates below 2^48 bytes per second none of the 64-bit products, sums and
      conversions of a round can overflow, and integers model them exactly. */
  lemma RoundFitsIn64Bits(t: Table, p: Params, totalBw: nat, i: nat)
    requires t.Valid() && p.pace > 0 && i < |t.cfg| <= MAX_MAP_SIZE
    requires totalBw < 0x1_0000_0000_0000 && p.minBandwidth < 0x1_0000_0000_0000
    requires forall j :: 0 <= j < |t.cfg| ==> t.cfg[j].lowRate < 0x1_0000_0000_0000 && t.cfg[j].reqRate < 0x2_0000_0000_0000
    ensures var s := Phase1(t, p);
      && t.cfg[i].reqRate + DeltaBw(t.cfg[i].reqRate, p.pace) < 0x8000_0000_0000_0000
      && s.cfg[i].reqRate * 7 < 0x8000_0000_0000_0000
      && -0x8000_0000_0000_0000 <= Remain(s, totalBw)
      && Remain(s, totalBw) * 70 < 0x8000_0000_0000_0000
      && Round(t, p, totalBw).cfg[i].reqRate < 0x2_0000_0000_0000
  {
    var s := Phase1(t, p);
    forall j | 0 <= j < |t.cfg| ensures s.cfg[j].reqRate <= 0x2_0000_0000_0000 {
      RequestsStayBounded(t, p, totalBw, 0xffff_ffff_ffff, j);
    }
    SumAtMost(s, 0x2_0000_0000_0000, |s.cfg|);
    RequestsStayBounded(t, p, totalBw, 0xffff_ffff_ffff, i);
  }

  // ---------------------------------------------------------------------
  // The guarantee is reached
  // ---------------------------------------------------------------------

  /** A history of rounds: each starts from the rates the last one wrote back. */
  ghost predicate History(h: seq<Table>, p: Params, totalBw: nat)
    requires p.pace > 0
  {
    && (forall k :: 0 <= k < |h| ==> h[k].Valid())
    && (forall k :: 0 < k < |h| ==> h[k].cfg == Round(h[k - 1], p, totalBw).cfg)
  }

  /** Instance i is active in round k and uses at least the ratio of its request. */
  ghost predicate Demands(t: Table, p: Params, i: nat) {
    t.Valid() && i < |t.cfg| && t.stat[i].rate > 0 && t.stat[i].rate * p.den >= t.cfg[i].reqRate * p.num
  }

  /** Phase 1 finds instance i at its low rate. */
  ghost predicate Attains(t: Table, p: Params, i: nat)
    requires p.pace > 0
  {
    t.Valid() && i < |t.cfg| && Phase1(t, p).status[i] == REACHED
  }

  /** A step of the pace raises the request or the floor lifts it; or the low rate is
      reached by the floor or the request as they are. */
  predicate Reachable(c: ThrottleCfg, p: Params) {
    var from := Max(c.reqRate, p.minBandwidth);
    p.pace <= from || c.lowRate <= from
  }

  /** One round of demand either reaches the low rate or raises the request by at
      least one; grants of phase 2 never undo that. */
  lemma DemandStep(t: Table, p: Params, totalBw: nat, i: nat)
    requires t.Valid() && p.pace > 0 && Demands(t, p, i) && Reachable(t.cfg[i], p)
    ensures var next := Round(t, p, totalBw).cfg[i];
      && next.lowRate == t.cfg[i].lowRate
      && (Attains(t, p, i) || (
           && t.cfg[i].reqRate + 1 < t.cfg[i].lowRate
           && t.cfg[i].reqRate + 1 <= next.reqRate
           && Reachable(next, p)))
  {
  }

  /** The rounds within which the low rate is due. */
  function Due(c: ThrottleCfg): nat {
    Max(1, c.lowRate - c.reqRate)
  }

  /** An instance that keeps demanding and whose low rate is reachable is guaranteed
      it within LowRate - ReqRate rounds, and within one if it is already there. */
  lemma {:induction false} GuaranteeReached(h: seq<Table>, p: Params, totalBw: nat, i: nat)
    requires p.pace > 0 && History(h, p, totalBw)
    requires forall k :: 0 <= k < |h| ==> Demands(h[k], p, i)
    requires h != [] && Demands(h[0], p, i) && Reachable(h[0].cfg[i], p)
    requires |h| >= Due(h[0].cfg[i])
    ensures exists k :: 0 <= k < Due(h[0].cfg[i]) && Attains(h[k], p, i)
    decreases |h|
  {
    DemandStep(h[0], p, totalBw, i);
    if !Attains(h[0], p, i) {
      var rest := h[1..];
      assert h[1].cfg == Round(h[0], p, totalBw).cfg;
      HistoryTail(h, p, totalBw);
      GuaranteeReached(rest, p, totalBw, i);
      var k :| 0 <= k < Due(rest[0].cfg[i]) && Attains(rest[k], p, i);
      assert Attains(h[k + 1], p, i);
    }
  }

  lemma HistoryTail(h: seq<Table>, p: Params, totalBw: nat)
    requires p.pace > 0 && History(h, p, totalBw) && h != []
    ensures History(h[1..], p, totalBw)
  {
    var rest := h[1..];
    forall k | 0 < k < |rest| ensures rest[k].cfg == Round(rest[k - 1], p, totalBw).cfg {
      assert h[k + 1].cfg == Round(h[k], p, totalBw).cfg;
    }
  }

  lemma NoStep(reqRate: nat, pace: nat)
    requires reqRate < pace
    ensures DeltaBw(reqRate, pace) == 0
  {
  }

  /** Otherwise the step is rounded down to nothing, and phase 1 moves the request at
      most to the floor. */
  lemma StuckRate(p: Params, curRate: nat, c: ThrottleCfg)
    requires p.pace > 0 && !Reachable(c, p)
    ensures var (rate, status) := AllocMinRate(p, curRate, c.reqRate, c.lowRate);
      status != REACHED && Max(rate, p.minBandwidth) == Max(c.reqRate, p.minBandwidth)
  {
    NoStep(c.reqRate, p.pace);
  }

  /** A round without a remainder leaves the low rate as far away as it was. */
  lemma StuckStep(t: Table, p: Params, totalBw: nat, i: nat)
    requires t.Valid() && p.pace > 0 && i < |t.cfg| && !Reachable(t.cfg[i], p)
    requires Remain(Phase1(t, p), totalBw) <= 0
    ensures !Attains(t, p, i) && !Reachable(Round(t, p, totalBw).cfg[i], p)
  {
    var s := Phase1(t, p);
    StuckRate(p, t.stat[i].rate, t.cfg[i]);
    assert s.status[i] != REACHED && Max(s.cfg[i].reqRate, p.minBandwidth) == Max(t.cfg[i].reqRate, p.minBandwidth);
    NoGrant(s, totalBw, i);
  }

  lemma NoGrant(s: Table, totalBw: nat, i: nat)
    requires s.Settled() && Remain(s, totalBw) <= 0 && i < |s.cfg|
    ensures Phase2(s, totalBw).cfg[i] == s.cfg[i]
  {
    assert Grant(s, Remain(s, totalBw), i) == 0;
  }

  /** Nothing is left over after phase 1 in any round. */
  ghost predicate NeverRemains(h: seq<Table>, p: Params, totalBw: nat)
    requires p.pace > 0
  {
    forall k :: 0 <= k < |h| ==> h[k].Valid() && Remain(Phase1(h[k], p), totalBw) <= 0
  }

  /** Such an instance never reaches its low rate while nothing remains, however long
      it demands. */
  lemma {:induction false} NeverReached(h: seq<Table>, p: Params, totalBw: nat, i: nat, k: nat)
    requires p.pace > 0 && History(h, p, totalBw) && NeverRemains(h, p, totalBw)
    requires k < |h| && i < |h[0].cfg| && !Reachable(h[0].cfg[i], p)
    ensures i < |h[k].cfg| && !Reachable(h[k].cfg[i], p) && !Attains(h[k], p, i)
  {
    if k > 0 {
      NeverReached(h, p, totalBw, i, k - 1);
      StuckStep(h[k - 1], p, totalBw, i);
      assert h[k].cfg == Round(h[k - 1], p, totalBw).cfg;
    }
    StuckStep(h[k], p, totalBw, i);
  }

  /** While phase 1 leaves nothing over, demand reaches the low rate in time exactly
      if it was reachable before the first round. */
  lemma ReachedExactly(h: seq<Table>, p: Params, totalBw: nat, i: nat)
    requires p.pace > 0 && History(h, p, totalBw) && NeverRemains(h, p, totalBw)
    requires forall k :: 0 <= k < |h| ==> Demands(h[k], p, i)
    requires h != [] && Demands(h[0], p, i) && |h| >= Due(h[0].cfg[i])
    ensures (exists k :: 0 <= k < |h| && Attains(h[k], p, i)) <==> Reachable(h[0].cfg[i], p)
  {
    if Reachable(h[0].cfg[i], p) {
      GuaranteeReached(h, p, totalBw, i);
    } else {
      forall k | 0 <= k < |h| ensures !Attains(h[k], p, i) {
        NeverReached(h, p, totalBw, i, k);
      }
    }
  }
}
