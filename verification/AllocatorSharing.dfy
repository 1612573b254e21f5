/** How phase 2 shares out what remains: exactly when it gives all of it away, and
    what each priority class gains, early exit included. */
module AllocatorSharing {
  import opened Throttle
  import opened Allocator
  import opened AllocatorTheorems

  // ---------------------------------------------------------------------
  // The early exit
  // ---------------------------------------------------------------------

  lemma {:induction false} StopReason(t: Table, remain: int, n: nat)
    requires t.Settled() && n <= |t.cfg|
    ensures var stop := StopFrom(t, remain, n);
      stop == |t.cfg| || remain <= Granted(t, remain, stop)
    decreases |t.cfg| - n
  {
    if n < |t.cfg| && !StopsAt(t, remain, n) {
      StopReason(t, remain, n + 1);
    }
  }

  lemma {:induction false} GrantedGrows(t: Table, remain: int, m: nat, n: nat)
    requires t.Settled() && m <= n <= |t.cfg|
    ensures Granted(t, remain, m) <= Granted(t, remain, n)
    decreases n
  {
    if m < n {
      GrantedGrows(t, remain, m, n - 1);
    }
  }

  /** The early exit costs nothing: all that remained is given away exactly when
      phase 2 without it would do so. */
  lemma ConservesExactly(t: Table, totalBw: nat)
    requires t.Settled()
    ensures totalBw <= ActiveSum(Phase2(t, totalBw)) <==> Remain(t, totalBw) <= Granted(t, Remain(t, totalBw), |t.cfg|)
  {
    var remain, stop := Remain(t, totalBw), Stop(t, totalBw);
    ServedSum(t, remain, stop, |t.cfg|);
    StopReason(t, remain, 0);
    GrantedGrows(t, remain, stop, |t.cfg|);
  }

  lemma {:induction false} SomeRemainsBefore(t: Table, remain: int, n: nat, i: nat)
    requires t.Settled() && n <= i < |t.cfg| && i < StopFrom(t, remain, n) && Granted(t, remain, n) < remain
    ensures Granted(t, remain, i) < remain
    decreases i - n
  {
    if n < i {
      if Skips(t, n) {
        assert Granted(t, remain, n + 1) == Granted(t, remain, n);
      }
      SomeRemainsBefore(t, remain, n + 1, i);
    }
  }

  /** What phase 2 gave to the first i instances. */
  function Given(t: Table, u: Table, i: nat): int
    requires t.Valid() && u.Valid() && i <= |t.cfg| == |u.cfg|
  {
    SumReq(u, i) - SumReq(t, i)
  }

  /** The early exit is exact: each instance gets its grant as long as what was given
      before it leaves something over, and nothing from then on. */
  lemma ServedExactly(t: Table, totalBw: nat, i: nat)
    requires t.Settled() && i < |t.cfg|
    ensures var u, remain := Phase2(t, totalBw), Remain(t, totalBw);
      u.cfg[i] == t.cfg[i].(reqRate := t.cfg[i].reqRate + if Given(t, u, i) < remain then Grant(t, remain, i) else 0)
  {
    var remain, stop := Remain(t, totalBw), Stop(t, totalBw);
    ServedSum(t, remain, stop, i);
    StopReason(t, remain, 0);
    if i < stop {
      if remain > 0 {
        SomeRemainsBefore(t, remain, 0, i);
      }
    } else {
      assert remain <= Granted(t, remain, stop);
    }
  }

  // ---------------------------------------------------------------------
  // Sharing among NEED instances
  // ---------------------------------------------------------------------

  /** No instance is passed over after one that was served as NEED. */
  predicate NeedInOrder(t: Table)
    requires t.Valid()
  {
    forall i, j :: 0 <= i < j < |t.cfg| && Open(t, i) ==> !Skips(t, j)
  }

  lemma {:induction false} NoneSkippedFrom(t: Table, m: nat, n: nat)
    requires t.Valid() && m <= n <= |t.cfg| && forall j :: m <= j < n ==> !Skips(t, j)
    ensures Count(t, Skipped, m) == Count(t, Skipped, n)
    decreases n
  {
    if m < n {
      NoneSkippedFrom(t, m, n - 1);
    }
  }

  lemma {:induction false} OneSkippedFrom(t: Table, m: nat, j: nat, n: nat)
    requires t.Valid() && m <= j < n <= |t.cfg| && Skips(t, j)
    ensures Count(t, Skipped, m) < Count(t, Skipped, n)
    decreases n
  {
    if j == n - 1 {
      CountMonotone(t, Skipped, m, j);
    } else {
      OneSkippedFrom(t, m, j, n - 1);
    }
  }

  /** In order, each NEED instance is served as one of those finally not passed over. */
  lemma {:induction false} NeedGrantsInOrder(t: Table, remain: nat, m: nat)
    requires t.Settled() && m <= |t.cfg| && remain > 0
    requires NeedInOrder(t) && All(t, Need) > All(t, Skipped)
    ensures Granted(t, remain, m) == OpenQuotas(t, Whole(remain, All(t, Need) - All(t, Skipped)) + 1, m)
  {
    if m > 0 {
      NeedGrantsInOrder(t, remain, m - 1);
      NeedGrantInOrder(t, remain, m - 1);
    }
  }

  lemma NeedGrantInOrder(t: Table, remain: nat, i: nat)
    requires t.Settled() && i < |t.cfg| && remain > 0
    requires NeedInOrder(t) && All(t, Need) > All(t, Skipped)
    ensures Grant(t, remain, i) == if Open(t, i) then Whole(remain, All(t, Need) - All(t, Skipped)) + 1 else 0
  {
    CountMonotone(t, Skipped, i, |t.cfg|);
    if Open(t, i) {
      NoneSkippedFrom(t, i, |t.cfg|);
    }
  }

  lemma NeedGivesAll(t: Table, remain: nat)
    requires t.Settled() && remain > 0 && NeedInOrder(t) && All(t, Need) > All(t, Skipped)
    ensures Granted(t, remain, |t.cfg|) > remain
  {
    var k := All(t, Need) - All(t, Skipped);
    NeedGrantsInOrder(t, remain, |t.cfg|);
    OpenQuotasAre(t, Whole(remain, k) + 1, |t.cfg|);
    ShareOut(remain, k);
  }

  /** Grants of at most q + 1 to each open instance, but only p + 1 to one of them. */
  lemma {:induction false} NeedGrantsBut(t: Table, remain: nat, q: nat, p: nat, i: nat, m: nat)
    requires t.Settled() && m <= |t.cfg| && i < |t.cfg| && Open(t, i)
    requires forall x :: 0 <= x < m ==> Grant(t, remain, x) <= if !Open(t, x) then 0 else if x == i then p + 1 else q + 1
    ensures Granted(t, remain, m) + (if i < m then q - p else 0) <= OpenQuotas(t, q + 1, m)
  {
    if m > 0 {
      NeedGrantsBut(t, remain, q, p, i, m - 1);
    }
  }

  /** An instance served before another is passed over takes too little for all to go. */
  lemma NeedKeepsSome(t: Table, remain: nat, i: nat, j: nat)
    requires t.Settled() && i < j < |t.cfg| && Open(t, i) && Skips(t, j) && All(t, Need) > All(t, Skipped)
    requires var k := All(t, Need) - All(t, Skipped); remain > k * k * (k + 1)
    ensures Granted(t, remain, |t.cfg|) < remain
  {
    var n, k := |t.cfg|, All(t, Need) - All(t, Skipped);
    var q, p := Whole(remain, k), Whole(remain, k + 1);
    forall x | 0 <= x < n
      ensures Grant(t, remain, x) <= if !Open(t, x) then 0 else if x == i then p + 1 else q + 1
    {
      GrantWhileOpen(t, remain, x, n, k);
      if x == i {
        OneSkippedFrom(t, i, j, n);
        SmallerShare(remain, k + 1, All(t, Need) - Count(t, Skipped, i));
      }
    }
    NeedGrantsBut(t, remain, q, p, i, n);
    OpenQuotasAre(t, q + 1, n);
    ShareOut(remain, k);
    ShareOut(remain, k + 1);
    FallsShort(k, remain, q, p);
  }

  lemma FallsShort(k: nat, x: nat, q: nat, p: nat)
    requires k >= 1 && k * q <= x && (k + 1) * p <= x && x > k * k * (k + 1)
    ensures k * (q + 1) - (q - p) < x
  {
    var d, e, sum := k * (k + 1), (k - 1) * (k + 1), (k - 1) * q + p + k;
    assert k * (q + 1) - (q - p) == sum;
    Reorder(k, k + 1, k - 1, q);
    Regroup(k, k + 1, p);
    Regroup(k, k, k + 1);
    Scaled(k * q, x, e);
    Scaled((k + 1) * p, x, k);
    ThreeTerms(d, (k - 1) * q, p, k);
    assert d == e + k + 1;
    ThreeTerms(x, e, k, 1);
    assert d * sum < d * x;
    CancelLess(d, sum, x);
  }

  lemma Reorder(a: int, b: int, c: int, q: int)
    ensures a * b * (c * q) == c * b * (a * q)
  {
  }

  lemma Regroup(a: int, b: int, c: int)
    ensures a * b * c == a * (b * c) == b * (a * c)
  {
  }

  lemma ThreeTerms(d: int, a: int, b: int, c: int)
    ensures d * (a + b + c) == d * a + d * b + d * c
  {
  }

  // ---------------------------------------------------------------------
  // Sharing among REACHED instances
  // ---------------------------------------------------------------------

  /** No instance is passed over after a REACHED one. */
  predicate ReachedInOrder(t: Table)
    requires t.Valid()
  {
    forall i, j :: 0 <= i < j < |t.cfg| && Is(t, Reached, i) ==> !Skips(t, j)
  }

  /** The percentage of the class goes to someone: it is not in use by NEED instances alone. */
  predicate Backs(t: Table, prio: nat)
    requires t.Valid()
  {
    All(t, NeedIn(prio)) > 0 ==> All(t, ReachedIn(prio)) > 0
  }

  predicate Backed(t: Table)
    requires t.Valid()
  {
    Backs(t, 0) && Backs(t, 1) && Backs(t, 2)
  }

  lemma NoneOpen(t: Table, i: nat)
    requires t.Settled() && i < |t.cfg| && All(t, Need) == All(t, Skipped)
    ensures !Open(t, i)
  {
    if Open(t, i) {
      UnskippedNeed(t, i, |t.cfg|);
    }
  }

  lemma ReachedGrant(t: Table, remain: nat, i: nat)
    requires t.Settled() && i < |t.cfg| && remain > 0 && All(t, Need) == All(t, Skipped)
    ensures Grant(t, remain, i) ==
      if t.status[i] == REACHED && Count(t, Skipped, i) == All(t, Need)
      then Quota(t, remain, t.cfg[i].priority) + 1 else 0
  {
    NoneOpen(t, i);
    if t.status[i] == REACHED {
      CountsAtReached(t, i);
    }
  }

  lemma {:induction false} ReachedGrantsInOrder(t: Table, remain: nat, m: nat)
    requires t.Settled() && m <= |t.cfg| && remain > 0
    requires All(t, Need) == All(t, Skipped) && ReachedInOrder(t)
    ensures Granted(t, remain, m) == Quotas(t, remain, m) + Count(t, Reached, m)
  {
    if m > 0 {
      ReachedGrantsInOrder(t, remain, m - 1);
      ReachedGrant(t, remain, m - 1);
      if Is(t, Reached, m - 1) {
        NoneSkippedFrom(t, m - 1, |t.cfg|);
      }
    }
  }

  /** With the rounding of each grant the three class shares cover the remainder. */
  lemma QuotasCover(t: Table, remain: nat)
    requires t.Settled() && Backed(t) && All(t, Reached) >= 1
    ensures Quotas(t, remain, |t.cfg|) + All(t, Reached) > remain
  {
    var n := |t.cfg|;
    ReachedClassesAdd(t, n);
    ClassBounds(t, remain, 0);
    ClassBounds(t, remain, 1);
    ClassBounds(t, remain, 2);
    ClassQuotasAre(t, remain, 0, n);
    ClassQuotasAre(t, remain, 1, n);
    ClassQuotasAre(t, remain, 2, n);
    ThreeCovers(Divide(t), remain,
      ClassQuotas(t, remain, 0, n) + All(t, ReachedIn(0)),
      ClassQuotas(t, remain, 1, n) + All(t, ReachedIn(1)),
      ClassQuotas(t, remain, 2, n) + All(t, ReachedIn(2)),
      Weight(t, 0), Weight(t, 1), Weight(t, 2));
  }

  lemma ReachedGivesAll(t: Table, remain: nat)
    requires t.Settled() && remain > 0 && All(t, Need) == All(t, Skipped)
    requires All(t, Reached) >= 1 && Backed(t) && ReachedInOrder(t)
    ensures Granted(t, remain, |t.cfg|) > remain
  {
    ReachedGrantsInOrder(t, remain, |t.cfg|);
    QuotasCover(t, remain);
  }

  /** At most a quota and one for each REACHED instance, but nothing to instance i if
      it is passed by. */
  lemma {:induction false} ReachedGrantsBut(t: Table, remain: nat, i: nat, m: nat)
    requires t.Settled() && m <= |t.cfg| && i <= |t.cfg| && remain > 0 && All(t, Need) == All(t, Skipped)
    requires i < |t.cfg| ==> t.status[i] == REACHED && Grant(t, remain, i) == 0
    ensures Granted(t, remain, m) + (if i < m then Quota(t, remain, t.cfg[i].priority) + 1 else 0)
         <= Quotas(t, remain, m) + Count(t, Reached, m)
  {
    if m > 0 {
      ReachedGrantsBut(t, remain, i, m - 1);
      ReachedGrant(t, remain, m - 1);
    }
  }

  /** The percentages of classes in use by NEED instances alone go to nobody. */
  lemma UnbackedKeepsTenth(t: Table, remain: nat)
    requires t.Settled() && !Backed(t)
    ensures 10 * Quotas(t, remain, |t.cfg|) <= 9 * remain
  {
    var n := |t.cfg|;
    ClassBounds(t, remain, 0);
    ClassBounds(t, remain, 1);
    ClassBounds(t, remain, 2);
    assert Weight(t, 0) + Weight(t, 1) + Weight(t, 2) + 10 <= Divide(t) <= 100;
    NineTenths(Divide(t), remain,
      ClassQuotas(t, remain, 0, n), ClassQuotas(t, remain, 1, n), ClassQuotas(t, remain, 2, n),
      Weight(t, 0), Weight(t, 1), Weight(t, 2));
  }

  lemma NineTenths(d: nat, x: nat, a: nat, b: nat, c: nat, pa: nat, pb: nat, pc: nat)
    requires d * a <= x * pa && d * b <= x * pb && d * c <= x * pc
    requires pa + pb + pc + 10 <= d <= 100
    ensures 10 * (a + b + c) <= 9 * x
  {
    var sum := a + b + c;
    ThreeShares(d, x, a, b, c, pa, pb, pc);
    assert d * sum == d * a + d * b + d * c;
    assert x * (pa + pb + pc) == x * pa + x * pb + x * pc;
    Scaled(pa + pb + pc, d - 10, x);
    assert x * (d - 10) == d * x - 10 * x;
    assert d * (x - sum) == d * x - d * sum;
    Scaled(d, 100, x - sum);
  }

  predicate Exceeds(x: nat, r: nat) {
    x > 10 * r * r
  }

  lemma ExceedsTenfold(x: nat, r: nat)
    requires Exceeds(x, r)
    ensures x > 0 && x > 10 * r
  {
    if r > 0 {
      Scaled(1, r, r);
    }
  }

  /** A large remainder makes every quota large. */
  lemma QuotaIsLarge(t: Table, remain: nat, i: nat)
    requires t.Settled() && i < |t.cfg| && t.status[i] == REACHED
    requires Exceeds(remain, All(t, Reached))
    ensures Quota(t, remain, t.cfg[i].priority) >= All(t, Reached)
  {
    var prio, r := t.cfg[i].priority, All(t, Reached);
    CountsAtReached(t, i);
    ReachedClassesAdd(t, |t.cfg|);
    TwoDivisions(remain * Percent(prio), Divide(t), All(t, ReachedIn(prio)));
    LargeQuotient(remain, Percent(prio), Divide(t), All(t, ReachedIn(prio)), r, Quota(t, remain, prio));
  }

  lemma LargeQuotient(x: nat, p: nat, d: nat, c: nat, r: nat, q: nat)
    requires 10 <= p && d <= 100 && c <= r && Exceeds(x, r)
    requires x * p < d * (c * q + c)
    ensures q >= r
  {
    if q < r {
      SmallQuotient(d, c, r, q);
      Scaled(10, p, x);
    }
  }

  lemma SmallQuotient(d: nat, c: nat, r: nat, q: nat)
    requires d <= 100 && c <= r && q < r
    ensures d * (c * q + c) <= 100 * r * r
  {
    assert c * q + c == c * (q + 1);
    Scaled(q + 1, r, c);
    Scaled(c, r, r);
    Scaled(d, 100, c * q + c);
  }

  lemma NoneReachedKeepsAll(t: Table, remain: nat)
    requires t.Settled() && All(t, Need) == All(t, Skipped) && All(t, Reached) == 0 && remain > 0
    ensures Granted(t, remain, |t.cfg|) == 0
  {
    var n := |t.cfg|;
    ReachedClassesAdd(t, n);
    ReachedGrantsBut(t, remain, n, n);
    ClassQuotasAre(t, remain, 0, n);
    ClassQuotasAre(t, remain, 1, n);
    ClassQuotasAre(t, remain, 2, n);
  }

  lemma PassedByKeepsSome(t: Table, remain: nat, i: nat, j: nat)
    requires t.Settled() && All(t, Need) == All(t, Skipped) && Exceeds(remain, All(t, Reached))
    requires i < j < |t.cfg| && Is(t, Reached, i) && Skips(t, j)
    ensures Granted(t, remain, |t.cfg|) < remain
  {
    ExceedsTenfold(remain, All(t, Reached));
    OneSkippedFrom(t, i, j, |t.cfg|);
    ReachedGrant(t, remain, i);
    ReachedGrantsBut(t, remain, i, |t.cfg|);
    QuotasFit(t, remain);
    QuotaIsLarge(t, remain, i);
  }

  lemma ReachedKeepsSome(t: Table, remain: nat)
    requires t.Settled() && All(t, Need) == All(t, Skipped) && Exceeds(remain, All(t, Reached))
    requires All(t, Reached) == 0 || !Backed(t) || !ReachedInOrder(t)
    ensures Granted(t, remain, |t.cfg|) < remain
  {
    ExceedsTenfold(remain, All(t, Reached));
    if All(t, Reached) == 0 {
      NoneReachedKeepsAll(t, remain);
    } else if !Backed(t) {
      ReachedGrantsBut(t, remain, |t.cfg|, |t.cfg|);
      UnbackedKeepsTenth(t, remain);
    } else {
      var i, j :| 0 <= i < j < |t.cfg| && Is(t, Reached, i) && Skips(t, j);
      PassedByKeepsSome(t, remain, i, j);
    }
  }

  // ---------------------------------------------------------------------
  // Work conservation
  // ---------------------------------------------------------------------

  /** Nothing need be left over: while some NEED instance is served, none is passed
      over after it; else the REACHED instances are served, all of them, and for every
      class in use. */
  predicate GivesAll(t: Table)
    requires t.Valid()
  {
    if All(t, Need) > All(t, Skipped) then NeedInOrder(t)
    else All(t, Reached) >= 1 && Backed(t) && ReachedInOrder(t)
  }

  /** What roundings can make up for an instance served with too little, or not at all. */
  function Roundings(t: Table): int
    requires t.Valid()
  {
    var k, r := All(t, Need) - All(t, Skipped), All(t, Reached);
    if k > 0 then k * k * (k + 1) else 10 * r * r
  }

  lemma RoundingsPositive(t: Table)
    requires t.Valid()
    ensures Roundings(t) >= 0
  {
    var k, r := All(t, Need) - All(t, Skipped), All(t, Reached);
    ProductPositive(10 * r, r);
    if k > 0 {
      ProductPositive(k, k);
      ProductPositive(k * k, k + 1);
    }
  }

  lemma ProductPositive(a: nat, b: nat)
    ensures a * b >= 0
  {
  }

  /** Work conservation: a table in order has all bandwidth given away, and no more
      than the roundings beyond it, also when the loop exits early. */
  lemma WorkConservation(t: Table, totalBw: nat)
    requires t.Settled() && GivesAll(t)
    ensures totalBw <= ActiveSum(Phase2(t, totalBw))
         <= Max(totalBw, ActiveSum(t)) + Grants(t, Remain(t, totalBw), Stop(t, totalBw))
  {
    var remain := Remain(t, totalBw);
    RoundConservation(t, totalBw);
    ConservesExactly(t, totalBw);
    CountsAdd(t, |t.cfg|);
    if remain > 0 {
      if All(t, Need) > All(t, Skipped) {
        NeedGivesAll(t, remain);
      } else {
        ReachedGivesAll(t, remain);
      }
    }
  }

  /** And only such a table: when what remains exceeds the roundings, all bandwidth
      is given away exactly if the table is in order. */
  lemma WorkConservationExactly(t: Table, totalBw: nat)
    requires t.Settled() && Remain(t, totalBw) > Roundings(t)
    ensures totalBw <= ActiveSum(Phase2(t, totalBw)) <==> GivesAll(t)
  {
    var remain := Remain(t, totalBw);
    ConservesExactly(t, totalBw);
    CountsAdd(t, |t.cfg|);
    RoundingsPositive(t);
    if GivesAll(t) {
      WorkConservation(t, totalBw);
    } else if All(t, Need) > All(t, Skipped) {
      var i, j :| 0 <= i < j < |t.cfg| && Open(t, i) && Skips(t, j);
      NeedKeepsSome(t, remain, i, j);
    } else {
      assert Exceeds(remain, All(t, Reached));
      ReachedKeepsSome(t, remain);
    }
  }

  /** Passing an instance over can leave bandwidth unused: of two instances that both
      demand more, the first is served as one of two, then the second is passed over. */
  lemma PassingOverLeavesIdle()
    ensures exists t: Table, p: Params, totalBw ::
      && t.Valid() && p.pace > 0 && p.minBandwidth > 0
      && All(Phase1(t, p), Need) > All(Phase1(t, p), Skipped) > 0
      && Remain(Phase1(t, p), totalBw) > 0 && ActiveSum(Round(t, p, totalBw)) < totalBw
  {
    var cfg := ThrottleCfg(0, 0, 200, 0, 100);
    var t := Table([cfg, cfg], [ThrottleStat(0, 0, 100, 0, 0), ThrottleStat(0, 0, 72, 0, 0)], [1, 1]);
    var p := Params(10, 10, 7, 10);
    var s := Phase1(t, p);
    assert DeltaBw(100, 10) == 10;
    assert s.cfg == [cfg.(reqRate := 110), cfg.(reqRate := 110)] && s.status == [NEED, NEED];
    LeavesIdle(s);
  }

  lemma LeavesIdle(s: Table)
    requires s.Settled() && |s.cfg| == 2 && s.status == [NEED, NEED]
    requires s.cfg[0].reqRate == s.cfg[1].reqRate == 110 && s.stat[0].rate == 100 && s.stat[1].rate == 72
    ensures All(s, Need) == 2 && All(s, Skipped) == 1 && Remain(s, 320) == 100
    ensures ActiveSum(Phase2(s, 320)) <= 271
  {
    assert Count(s, Need, 0) == 0 && Count(s, Need, 1) == 1 && Count(s, Need, 2) == 2;
    assert Count(s, Skipped, 0) == 0 && Count(s, Skipped, 1) == 0 && Count(s, Skipped, 2) == 1;
    assert SumReq(s, 0) == 0 && SumReq(s, 1) == 110 && SumReq(s, 2) == 220;
    assert Grant(s, 100, 0) == 51 && Grant(s, 100, 1) == 0;
    assert Granted(s, 100, 0) == 0 && Granted(s, 100, 1) == 51 && Granted(s, 100, 2) == 51;
    ServedSum(s, 100, Stop(s, 320), 2);
  }

  // ---------------------------------------------------------------------
  // Priority classes
  // ---------------------------------------------------------------------

  function Gain(t: Table, u: Table, i: nat): int
    requires i < |t.cfg| == |u.cfg|
  {
    u.cfg[i].reqRate - t.cfg[i].reqRate
  }

  /** By how much the requests of the REACHED instances of a class, among the first
      n, are higher in table u. */
  function ClassGain(t: Table, u: Table, prio: nat, n: nat): int
    requires t.Valid() && u.Valid() && n <= |t.cfg| == |u.cfg|
  {
    if n == 0 then 0
    else ClassGain(t, u, prio, n - 1) + if Is(t, ReachedIn(prio), n - 1) then Gain(t, u, n - 1) else 0
  }

  function ClassGranted(t: Table, remain: int, prio: nat, n: nat): nat
    requires t.Settled() && n <= |t.cfg|
  {
    if n == 0 then 0
    else ClassGranted(t, remain, prio, n - 1) + if Is(t, ReachedIn(prio), n - 1) then Grant(t, remain, n - 1) else 0
  }

  lemma {:induction false} ServedGain(t: Table, remain: int, stop: nat, prio: nat, n: nat)
    requires t.Settled() && n <= |t.cfg| && stop <= |t.cfg|
    ensures ClassGain(t, Served(t, remain, stop), prio, n) == ClassGranted(t, remain, prio, Min(n, stop))
  {
    if n > 0 {
      ServedGain(t, remain, stop, prio, n - 1);
    }
  }

  lemma ReachedGrantAtMost(t: Table, remain: nat, i: nat)
    requires t.Settled() && i < |t.cfg| && t.status[i] == REACHED
    ensures Grant(t, remain, i) <= Quota(t, remain, t.cfg[i].priority) + 1
  {
    CountsAtReached(t, i);
  }

  lemma {:induction false} ClassGrantedAtMost(t: Table, remain: nat, prio: nat, n: nat)
    requires t.Settled() && n <= |t.cfg| && prio <= 2
    ensures ClassGranted(t, remain, prio, n) <= ClassQuotas(t, remain, prio, n) + Count(t, ReachedIn(prio), n)
  {
    if n > 0 {
      ClassGrantedAtMost(t, remain, prio, n - 1);
      if Is(t, ReachedIn(prio), n - 1) {
        ReachedGrantAtMost(t, remain, n - 1);
      }
    }
  }

  /** Once all are passed over, every grant goes to one of the classes. */
  lemma {:induction false} ClassesGetAll(t: Table, remain: nat, n: nat)
    requires t.Settled() && n <= |t.cfg| && All(t, Need) == All(t, Skipped)
    ensures Granted(t, remain, n)
         == ClassGranted(t, remain, 0, n) + ClassGranted(t, remain, 1, n) + ClassGranted(t, remain, 2, n)
  {
    if n > 0 {
      ClassesGetAll(t, remain, n - 1);
      NoneOpen(t, n - 1);
    }
  }

  predicate AllClasses(t: Table)
    requires t.Valid()
  {
    All(t, ReachedIn(0)) > 0 && All(t, ReachedIn(1)) > 0 && All(t, ReachedIn(2)) > 0
  }

  /** The share of a class that has REACHED instances. */
  function Owed(t: Table, remain: nat, prio: nat): nat
    requires t.Valid() && prio <= 2
  {
    if All(t, ReachedIn(prio)) > 0 then ClassShare(t, remain, prio) else 0
  }

  lemma OwedIsPart(t: Table, remain: nat, prio: nat)
    requires t.Settled() && prio <= 2 && Divide(t) > 0
    ensures Divide(t) * Owed(t, remain, prio) <= remain * Weight(t, prio)
  {
    if All(t, ReachedIn(prio)) > 0 {
      ShareOut(remain * Percent(prio), Divide(t));
    } else {
      ScaledByZero(Divide(t), remain);
    }
  }

  /** The shares of the classes fit into the remainder. */
  lemma OwedFits(t: Table, remain: nat)
    requires t.Settled() && Divide(t) > 0
    ensures Owed(t, remain, 0) + Owed(t, remain, 1) + Owed(t, remain, 2) <= remain
  {
    OwedIsPart(t, remain, 0);
    OwedIsPart(t, remain, 1);
    OwedIsPart(t, remain, 2);
    ThreeShares(Divide(t), remain, Owed(t, remain, 0), Owed(t, remain, 1), Owed(t, remain, 2),
      Weight(t, 0), Weight(t, 1), Weight(t, 2));
  }

  /** All a class can have been granted when the loop ends. */
  lemma ClassFits(t: Table, remain: nat, prio: nat, m: nat)
    requires t.Settled() && m <= |t.cfg| && prio <= 2
    ensures ClassGranted(t, remain, prio, m) <= Owed(t, remain, prio) + All(t, ReachedIn(prio))
  {
    ClassGrantedAtMost(t, remain, prio, m);
    ClassQuotasGrow(t, remain, prio, m, |t.cfg|);
    CountMonotone(t, ReachedIn(prio), m, |t.cfg|);
    ClassQuotasAre(t, remain, prio, |t.cfg|);
    if All(t, ReachedIn(prio)) > 0 {
      ShareOut(ClassShare(t, remain, prio), All(t, ReachedIn(prio)));
    }
  }

  /** Only REACHED instances are served, all of them, and for every class in use; as
      when nothing is needed. */
  predicate ServesReached(t: Table)
    requires t.Valid()
  {
    All(t, Need) == All(t, Skipped) && All(t, Reached) > 0 && Backed(t) && ReachedInOrder(t)
  }

  lemma NothingNeeded(t: Table)
    requires t.Settled() && All(t, Need) == 0 && All(t, Reached) > 0
    ensures ServesReached(t)
  {
    var n := |t.cfg|;
    NeedClassesAdd(t, n);
    CountsAdd(t, n);
    forall i, j | 0 <= i < j < n && Is(t, Reached, i) ensures !Skips(t, j) {
      CountMonotone(t, Need, j + 1, n);
    }
  }

  /** What the classes were granted when the loop ends covers all that remained. */
  lemma ClassesCover(t: Table, totalBw: nat)
    requires t.Settled() && ServesReached(t) && Remain(t, totalBw) > 0
    ensures var remain, m := Remain(t, totalBw), Stop(t, totalBw);
      remain <= ClassGranted(t, remain, 0, m) + ClassGranted(t, remain, 1, m) + ClassGranted(t, remain, 2, m)
  {
    var remain := Remain(t, totalBw);
    ReachedGivesAll(t, remain);
    StopReason(t, remain, 0);
    ClassesGetAll(t, remain, Stop(t, totalBw));
  }

  lemma HundredPercent(t: Table, remain: nat, prio: nat)
    requires t.Settled() && prio <= 2 && AllClasses(t)
    ensures ClassShare(t, remain, prio) == remain * (if prio == 0 then 10 else if prio == 1 then 20 else 70) / 100
  {
    assert Divide(t) == 100;
  }

  /** In general the share is the class's percentage among those of the classes in use. */
  lemma ShareIsPercentage(t: Table, remain: nat, prio: nat)
    requires t.Settled() && prio <= 2 && All(t, ReachedIn(prio)) > 0
    ensures var used := (if ClassUsed(t, 0) then 10 else 0) + (if ClassUsed(t, 1) then 20 else 0)
          + (if ClassUsed(t, 2) then 70 else 0);
      var own := remain * (if prio == 0 then 10 else if prio == 1 then 20 else 70);
      used * ClassShare(t, remain, prio) <= own < used * (ClassShare(t, remain, prio) + 1)
  {
    ShareOut(remain * Percent(prio), Divide(t));
  }

  /** No class ever gains more than its share and one for each of its instances. */
  lemma ClassGainAtMost(t: Table, totalBw: nat, prio: nat)
    requires t.Settled() && Remain(t, totalBw) > 0 && prio <= 2 && All(t, ReachedIn(prio)) > 0
    ensures ClassGain(t, Phase2(t, totalBw), prio, |t.cfg|)
         <= ClassShare(t, Remain(t, totalBw), prio) + All(t, ReachedIn(prio))
  {
    ServedGain(t, Remain(t, totalBw), Stop(t, totalBw), prio, |t.cfg|);
    ClassFits(t, Remain(t, totalBw), prio, Stop(t, totalBw));
  }

  /** When the REACHED instances are served, each class gains its share of the
      remainder: beyond it at most one for each of its own instances, and short of it,
      when the loop exits before serving all of them, at most one for each of the
      others. With all three classes in use the shares are 10, 20 and 70 percent. */
  lemma PrioritySplit(t: Table, totalBw: nat, prio: nat)
    requires t.Settled() && ServesReached(t) && Remain(t, totalBw) > 0
    requires prio <= 2 && All(t, ReachedIn(prio)) > 0
    ensures var gain := ClassGain(t, Phase2(t, totalBw), prio, |t.cfg|);
      var share, own := ClassShare(t, Remain(t, totalBw), prio), All(t, ReachedIn(prio));
      share - (All(t, Reached) - own) <= gain <= share + own
    ensures AllClasses(t) ==>
      ClassShare(t, Remain(t, totalBw), prio)
      == Remain(t, totalBw) * (if prio == 0 then 10 else if prio == 1 then 20 else 70) / 100
  {
    var remain, m := Remain(t, totalBw), Stop(t, totalBw);
    ReachedClassesAdd(t, |t.cfg|);
    ClassesCover(t, totalBw);
    ServedGain(t, remain, m, prio, |t.cfg|);
    ClassFits(t, remain, 0, m);
    ClassFits(t, remain, 1, m);
    ClassFits(t, remain, 2, m);
    OwedFits(t, remain);
    if AllClasses(t) {
      HundredPercent(t, remain, prio);
    }
  }

  /** The early exit can cut off a class that is owed more than a rounding: two
      instances of the highest class take all of a remainder of 6. */
  lemma ClassCutOff()
    ensures exists t: Table, totalBw ::
      && t.Settled() && All(t, Need) == 0 && Remain(t, totalBw) > 0
      && AllClasses(t)
      && ClassShare(t, Remain(t, totalBw), 1) >= 1
      && ClassGain(t, Phase2(t, totalBw), 1, |t.cfg|) == ClassGain(t, Phase2(t, totalBw), 0, |t.cfg|) == 0
  {
    var a, b, c := ThrottleCfg(2, 0, 100, 0, 100), ThrottleCfg(1, 0, 100, 0, 100), ThrottleCfg(0, 0, 100, 0, 100);
    var u := ThrottleStat(0, 0, 100, 0, 0);
    var t := Table([a, a, b, c], [u, u, u, u], [REACHED, REACHED, REACHED, REACHED]);
    CutOffCounts(t, a, b, c, u);
    CutOffGrants(t);
    CutOffStops(t);
    ServedGain(t, 6, 2, 1, 4);
    ServedGain(t, 6, 2, 0, 4);
    assert ClassGranted(t, 6, 1, 2) == ClassGranted(t, 6, 1, 1) == ClassGranted(t, 6, 1, 0) == 0;
    assert ClassGranted(t, 6, 0, 2) == ClassGranted(t, 6, 0, 1) == ClassGranted(t, 6, 0, 0) == 0;
    assert Phase2(t, 406) == Served(t, 6, 2);
  }

  predicate CutOffTable(t: Table, a: ThrottleCfg, b: ThrottleCfg, c: ThrottleCfg, u: ThrottleStat) {
    && a.priority == 2 && b.priority == 1 && c.priority == 0 && u.rate > 0
    && a.reqRate == b.reqRate == c.reqRate == 100
    && t == Table([a, a, b, c], [u, u, u, u], [REACHED, REACHED, REACHED, REACHED])
  }

  lemma CutOffCounts(t: Table, a: ThrottleCfg, b: ThrottleCfg, c: ThrottleCfg, u: ThrottleStat)
    requires CutOffTable(t, a, b, c, u)
    ensures t.Settled() && All(t, Need) == 0 && Divide(t) == 100 && ActiveSum(t) == 400
    ensures All(t, ReachedIn(0)) == 1 && All(t, ReachedIn(1)) == 1 && All(t, ReachedIn(2)) == 2
    ensures Count(t, Skipped, 0) == Count(t, Skipped, 1) == 0
  {
    CutOffCount(t, a, b, c, u, Need);
    CutOffCount(t, a, b, c, u, ReachedIn(0));
    CutOffCount(t, a, b, c, u, ReachedIn(1));
    CutOffCount(t, a, b, c, u, ReachedIn(2));
    assert SumReq(t, 2) == SumReq(t, 0) + 200;
    assert SumReq(t, 4) == SumReq(t, 2) + 200;
  }

  lemma CutOffCount(t: Table, a: ThrottleCfg, b: ThrottleCfg, c: ThrottleCfg, u: ThrottleStat, kind: Kind)
    requires CutOffTable(t, a, b, c, u)
    ensures t.Settled()
    ensures All(t, kind) == (if Is(t, kind, 0) then 1 else 0) + (if Is(t, kind, 1) then 1 else 0)
      + (if Is(t, kind, 2) then 1 else 0) + (if Is(t, kind, 3) then 1 else 0)
  {
    assert Count(t, kind, 0) == 0;
    assert Count(t, kind, 1) == if Is(t, kind, 0) then 1 else 0;
    assert Count(t, kind, 4) == Count(t, kind, 3) + if Is(t, kind, 3) then 1 else 0;
    assert Count(t, kind, 3) == Count(t, kind, 2) + if Is(t, kind, 2) then 1 else 0;
    assert Count(t, kind, 2) == (if Is(t, kind, 0) then 1 else 0) + (if Is(t, kind, 1) then 1 else 0);
  }

  lemma CutOffGrants(t: Table)
    requires t.Settled() && |t.cfg| == 4 && All(t, Need) == 0 && Divide(t) == 100
    requires t.status[0] == t.status[1] == REACHED && t.cfg[0].priority == t.cfg[1].priority == 2
    requires All(t, ReachedIn(2)) == 2 && Count(t, Skipped, 0) == Count(t, Skipped, 1) == 0
    ensures Grant(t, 6, 0) == Grant(t, 6, 1) == 3 && ClassShare(t, 6, 1) == 1
  {
    assert ClassShare(t, 6, 2) == 4;
    assert EqualShare(4, 2) == 3;
  }

  lemma CutOffStops(t: Table)
    requires t.Settled() && |t.cfg| == 4 && ActiveSum(t) == 400
    requires t.status[0] == t.status[1] == REACHED && Grant(t, 6, 0) == Grant(t, 6, 1) == 3
    ensures Remain(t, 406) == 6 && Stop(t, 406) == 2
  {
    assert Granted(t, 6, 0) == 0 && Granted(t, 6, 1) == 3 && Granted(t, 6, 2) == 6;
    assert !StopsAt(t, 6, 0) && StopsAt(t, 6, 1);
    assert StopFrom(t, 6, 1) == 2;
  }
}
