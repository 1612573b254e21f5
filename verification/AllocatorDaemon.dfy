/** The allocator's arrays and loops (EdtProcData and the body of Run), working in
    place, proved to compute the round that module Allocator defines by counting. */
module AllocatorDaemon {
  import opened Throttle
  import opened Allocator

  /** The counters that phase 1 leaves for phase 2. */
  datatype Tally = Tally(remainBw: int, priorityCnt: seq<uint16>, reached: nat, down: nat)

  /** The class counters after the first n instances of phase 1. */
  ghost predicate ClassCounts(t: Table, n: nat, cnt: seq<uint16>)
    requires t.Settled() && n <= |t.cfg|
  {
    && |cnt| == 3
    && cnt[0] == Count(t, NeedIn(0), n) + Count(t, ReachedIn(0), n)
    && cnt[1] == Count(t, NeedIn(1), n) + Count(t, ReachedIn(1), n)
    && cnt[2] == Count(t, NeedIn(2), n) + Count(t, ReachedIn(2), n)
  }

  /** Counting one more instance moves one class at most, and no count wraps. */
  lemma ClassCountsStep(t: Table, n: nat, cnt: seq<uint16>)
    requires t.Settled() && n < |t.cfg| <= 0xffff && ClassCounts(t, n, cnt)
    ensures cnt[t.cfg[n].priority] < 0xffff
    ensures if t.status[n] == DOWN then ClassCounts(t, n + 1, cnt)
            else ClassCounts(t, n + 1, cnt[t.cfg[n].priority := cnt[t.cfg[n].priority] + 1])
  {
    CountsAdd(t, n);
    ClassesAdd(t, n);
  }

  ghost predicate TallyOf(c: Tally, t: Table, totalBw: nat)
    requires t.Settled()
  {
    TallyAt(c, t, totalBw, |t.cfg|)
  }

  /** The counters after the first n instances of phase 1, of which t is the result. */
  ghost predicate TallyAt(c: Tally, t: Table, totalBw: nat, n: nat)
    requires t.Settled() && n <= |t.cfg|
  {
    && c.remainBw == totalBw - SumReq(t, n)
    && ClassCounts(t, n, c.priorityCnt)
    && c.reached == Count(t, Reached, n)
    && c.down == Count(t, Down, n)
  }

  /** The arrays after the first n instances of phase 1. */
  ghost predicate SteppedUpTo(cfg: seq<ThrottleCfg>, status: seq<nat>, was: Table, p: Params, n: nat)
    requires was.Valid() && p.pace > 0
  {
    && |cfg| == |status| == |was.cfg|
    && n <= |cfg|
    && (forall j :: 0 <= j < n ==> cfg[j] == Phase1(was, p).cfg[j] && status[j] == Phase1(was, p).status[j])
    && (forall j :: n <= j < |cfg| ==> cfg[j] == was.cfg[j] && status[j] == was.status[j])
  }

  /** Counting one instance by its new status; no class count wraps. */
  function Tallied(c: Tally, cfg: ThrottleCfg, status: nat): Tally
    requires |c.priorityCnt| == 3 && cfg.priority <= 2 && c.priorityCnt[cfg.priority] < 0xffff
  {
    var cnt := c.priorityCnt[cfg.priority := c.priorityCnt[cfg.priority] + 1];
    if status == NEED then c.(remainBw := c.remainBw - cfg.reqRate, priorityCnt := cnt)
    else if status == REACHED then c.(remainBw := c.remainBw - cfg.reqRate, priorityCnt := cnt, reached := c.reached + 1)
    else c.(remainBw := c.remainBw - cfg.reqRate, down := c.down + 1)
  }

  lemma TallyStep(c: Tally, t: Table, totalBw: nat, n: nat)
    requires t.Settled() && n < |t.cfg| <= 0xffff && TallyAt(c, t, totalBw, n)
    ensures |c.priorityCnt| == 3 && c.priorityCnt[t.cfg[n].priority] < 0xffff
    ensures t.stat[n].rate == 0 ==> TallyAt(c, t, totalBw, n + 1)
    ensures t.stat[n].rate > 0 ==> TallyAt(Tallied(c, t.cfg[n], t.status[n]), t, totalBw, n + 1)
  {
    ClassCountsStep(t, n, c.priorityCnt);
  }

  /** The running state of phase 2 before instance n: its counters, the flag that
      every NEED instance was passed over, and what remains. */
  datatype Progress = Progress(reached: nat, down: nat, priorityCnt: seq<uint16>, allReached: bool, remainBwVary: int)

  ghost predicate ProgressAt(g: Progress, t: Table, remain: int, n: nat)
    requires t.Settled() && n <= |t.cfg|
  {
    && CountersAt(t, n, g.reached, g.down, g.priorityCnt)
    && (g.allReached <==> Count(t, Skipped, n) == All(t, Need))
    && g.remainBwVary == remain - Granted(t, remain, n)
  }

  /** What the running counters of phase 2 stand for before instance n. */
  ghost predicate CountersAt(t: Table, n: nat, reached: nat, down: nat, cnt: seq<uint16>)
    requires t.Settled() && n <= |t.cfg|
  {
    && reached == All(t, Reached) + Count(t, Skipped, n)
    && down == All(t, Down)
    && |cnt| == 3
    && cnt[0] == All(t, NeedIn(0)) + All(t, ReachedIn(0)) - Count(t, SkippedIn(0), n)
    && cnt[1] == All(t, NeedIn(1)) + All(t, ReachedIn(1)) - Count(t, SkippedIn(1), n)
    && cnt[2] == All(t, NeedIn(2)) + All(t, ReachedIn(2)) - Count(t, SkippedIn(2), n)
  }

  predicate AllAccounted(reached: nat, down: nat, valid: nat) {
    reached == valid || reached + down == valid
  }

  /** The test on the counters says exactly that every NEED instance was passed
      over, and what is left of the valid count is the number of the others. */
  lemma FlagMeansAllPassedOver(t: Table, n: nat, reached: nat, down: nat, cnt: seq<uint16>)
    requires t.Settled() && n <= |t.cfg| && CountersAt(t, n, reached, down, cnt)
    ensures var valid := All(t, Active);
      && reached + down <= valid
      && valid - reached - down == All(t, Need) - Count(t, Skipped, n)
      && (AllAccounted(reached, down, valid) <==> Count(t, Skipped, n) == All(t, Need))
  {
    CountsAdd(t, |t.cfg|);
    CountsAdd(t, n);
    CountMonotone(t, Need, n, |t.cfg|);
  }

  /** Once all are passed over, a class count is its number of REACHED instances. */
  lemma ClassCountIsReached(t: Table, n: nat, p: nat)
    requires t.Settled() && n <= |t.cfg| && p <= 2
    ensures Count(t, SkippedIn(p), n) <= All(t, NeedIn(p))
    ensures Count(t, Skipped, n) == All(t, Need) ==> Count(t, SkippedIn(p), n) == All(t, NeedIn(p))
  {
    ClassesAdd(t, |t.cfg|);
    ClassesAdd(t, n);
    SkippedWithinClass(t, n, 0);
    SkippedWithinClass(t, n, 1);
    SkippedWithinClass(t, n, 2);
  }

  lemma SkippedWithinClass(t: Table, n: nat, p: nat)
    requires t.Settled() && n <= |t.cfg|
    ensures Count(t, SkippedIn(p), n) <= All(t, NeedIn(p))
  {
    SkippedInClass(t, p, n);
    CountMonotone(t, NeedIn(p), n, |t.cfg|);
  }

  lemma ProgressStart(c: Tally, t: Table, totalBw: nat)
    requires t.Settled() && TallyOf(c, t, totalBw)
    ensures ProgressAt(Progress(c.reached, c.down, c.priorityCnt,
      AllAccounted(c.reached, c.down, All(t, Active)), c.remainBw), t, Remain(t, totalBw), 0)
  {
    FlagMeansAllPassedOver(t, 0, c.reached, c.down, c.priorityCnt);
  }

  /** Passing an instance over takes one from its class, which is never empty then. */
  lemma PassOverStep(g: Progress, t: Table, remain: int, n: nat)
    requires t.Settled() && n < |t.cfg| && ProgressAt(g, t, remain, n) && Skips(t, n)
    ensures g.priorityCnt[t.cfg[n].priority] > 0
    ensures ProgressAt(Progress(g.reached + 1, g.down,
      g.priorityCnt[t.cfg[n].priority := g.priorityCnt[t.cfg[n].priority] - 1],
      g.allReached || AllAccounted(g.reached + 1, g.down, All(t, Active)), g.remainBwVary), t, remain, n + 1)
  {
    var prio := t.cfg[n].priority;
    ClassCountIsReached(t, n + 1, prio);
    CountsAdd(t, n + 1);
    CountMonotone(t, Need, n + 1, |t.cfg|);
    FlagMeansAllPassedOver(t, n + 1, g.reached + 1, g.down, g.priorityCnt[prio := g.priorityCnt[prio] - 1]);
  }

  lemma ServeStep(g: Progress, t: Table, remain: int, n: nat)
    requires t.Settled() && n < |t.cfg| && ProgressAt(g, t, remain, n) && !Skips(t, n)
    ensures ProgressAt(g.(remainBwVary := g.remainBwVary - Grant(t, remain, n)), t, remain, n + 1)
  {
  }

  /** The requests once phase 2 has served the first n instances. */
  ghost predicate ServedUpTo(cfg: seq<ThrottleCfg>, t: Table, remain: int, n: nat)
    requires t.Settled() && n <= |t.cfg|
  {
    && |cfg| == |t.cfg|
    && (forall j :: 0 <= j < n ==> cfg[j] == t.cfg[j].(reqRate := t.cfg[j].reqRate + Grant(t, remain, j)))
    && (forall j :: n <= j < |cfg| ==> cfg[j] == t.cfg[j])
  }

  lemma ServedUpToIsServed(cfg: seq<ThrottleCfg>, t: Table, remain: int, n: nat)
    requires t.Settled() && n <= |t.cfg| && ServedUpTo(cfg, t, remain, n)
    ensures cfg == Served(t, remain, n).cfg
  {
  }

  lemma {:induction false} ActiveUnchanged(t: Table, p: Params, n: nat)
    requires t.Valid() && p.pace > 0 && n <= |t.cfg|
    ensures Count(Phase1(t, p), Active, n) == Count(t, Active, n)
  {
    if n > 0 {
      ActiveUnchanged(t, p, n - 1);
    }
  }

  class EdtProcData {
    const throttleCfg: array<ThrottleCfg>
    const throttleStat: array<ThrottleStat>
    const objStatus: array<nat>
    var validObjCnt: nat
    const totalBw: nat

    constructor (totalBw: nat)
      ensures Valid() && this.totalBw == totalBw && validObjCnt == 0
      ensures fresh(throttleCfg) && fresh(throttleStat) && fresh(objStatus)
    {
      throttleCfg := new ThrottleCfg[MAX_MAP_SIZE](_ => ZERO_CFG);
      throttleStat := new ThrottleStat[MAX_MAP_SIZE](_ => ZERO_STAT);
      objStatus := new nat[MAX_MAP_SIZE](_ => 0);
      validObjCnt := 0;
      this.totalBw := totalBw;
    }

    ghost predicate Valid()
      reads throttleCfg
    {
      && throttleCfg.Length == throttleStat.Length == objStatus.Length == MAX_MAP_SIZE
      && forall i :: 0 <= i < MAX_MAP_SIZE ==> throttleCfg[i].priority <= 2
    }

    ghost function View(): (t: Table)
      requires Valid()
      reads throttleCfg, throttleStat, objStatus
      ensures t.Valid() && |t.cfg| == MAX_MAP_SIZE
    {
      Table(throttleCfg[..], throttleStat[..], objStatus[..])
    }

    /** The state in which a lookup leaves the arrays. */
    ghost predicate LookedUp()
      reads this, throttleCfg, throttleStat, objStatus
    {
      && Valid()
      && validObjCnt == All(View(), Active)
      && forall i :: 0 <= i < MAX_MAP_SIZE ==> objStatus[i] == if throttleStat[i].rate > 0 then 1 else 0
    }

    /** The body of the lookup loop. */
    method LookupInstance(index: nat, stat0: ThrottleStat, cfg: ThrottleCfg)
      requires Valid() && index < MAX_MAP_SIZE && cfg.priority <= 2
      modifies this, throttleCfg, throttleStat, objStatus
      ensures throttleStat[..] == old(throttleStat[..])[index := Fresh(old(throttleStat[index]), stat0)]
      ensures throttleCfg[..] == old(throttleCfg[..])[index := cfg]
      ensures objStatus[..] == old(objStatus[..])[index := if throttleStat[index].rate > 0 then 1 else 0]
      ensures validObjCnt == old(validObjCnt) + if throttleStat[index].rate > 0 then 1 else 0
    {
      var stat := stat0;
      if stat.tStart != 0 && throttleStat[index].tStart == stat.tStart {
        stat := stat.(rate := 0);
      }
      throttleStat[index] := stat;
      throttleCfg[index] := cfg;
      if stat.rate > 0 {
        objStatus[index] := 1;
        validObjCnt := validObjCnt + 1;
      } else {
        objStatus[index] := 0;
      }
    }

    /** `stats` and `cfgs` are the batches read from the kernel maps. */
    method LookupEdtProcData(stats: seq<ThrottleStat>, cfgs: seq<ThrottleCfg>)
      requires Valid() && |stats| == |cfgs| == MAX_MAP_SIZE
      requires forall c :: c in cfgs ==> c.priority <= 2
      modifies this, throttleCfg, throttleStat, objStatus
      ensures LookedUp()
      ensures View() == Lookup(old(View()), stats, cfgs)
    {
      ghost var last := throttleStat[..];
      ghost var t := Lookup(View(), stats, cfgs);
      validObjCnt := 0;
      for index := 0 to |stats|
        invariant Valid() && throttleStat[index..] == last[index..]
        invariant throttleCfg[..index] == t.cfg[..index] && throttleStat[..index] == t.stat[..index]
        invariant objStatus[..index] == t.status[..index]
        invariant validObjCnt == Count(t, Active, index)
      {
        assert throttleStat[index..][0] == last[index];
        LookupInstance(index, stats[index], cfgs[index]);
      }
      assert View() == t;
    }

    /** The body of the first loop. */
    method AllocateInstance(id: nat, p: Params, ghost was: Table, ghost t: Table, c: Tally) returns (c': Tally)
      requires Valid() && p.pace > 0 && id < MAX_MAP_SIZE
      requires was.Valid() && t == Phase1(was, p) && was.stat == throttleStat[..]
      requires throttleCfg[id] == was.cfg[id] && objStatus[id] == was.status[id]
      requires objStatus[id] == if throttleStat[id].rate > 0 then 1 else 0
      requires TallyAt(c, t, totalBw, id)
      modifies throttleCfg, objStatus
      ensures throttleCfg[..] == old(throttleCfg[..])[id := t.cfg[id]]
      ensures objStatus[..] == old(objStatus[..])[id := t.status[id]]
      ensures TallyAt(c', t, totalBw, id + 1)
    {
      TallyStep(c, t, totalBw, id);
      c' := c;
      if objStatus[id] == 1 {
        var step := AllocMinRate(p, throttleStat[id].rate, throttleCfg[id].reqRate, throttleCfg[id].lowRate);
        throttleCfg[id] := throttleCfg[id].(reqRate := step.0);
        objStatus[id] := step.1;
        c' := c'.(remainBw := c'.remainBw - throttleCfg[id].reqRate);
        var prio := throttleCfg[id].priority;
        if objStatus[id] == NEED {
          c' := c'.(priorityCnt := c'.priorityCnt[prio := c'.priorityCnt[prio] + 1]);
        } else if objStatus[id] == REACHED {
          c' := c'.(reached := c'.reached + 1);
          c' := c'.(priorityCnt := c'.priorityCnt[prio := c'.priorityCnt[prio] + 1]);
        } else {
          c' := c'.(down := c'.down + 1);
        }
      }
    }

    /** The first loop of a round. */
    method AllocatePhase(p: Params) returns (c: Tally)
      requires LookedUp() && p.pace > 0
      modifies throttleCfg, objStatus
      ensures Valid() && View() == Phase1(old(View()), p)
      ensures TallyOf(c, View(), totalBw)
    {
      ghost var was := View();
      ghost var t := Phase1(was, p);
      c := Tally(totalBw, [0, 0, 0], 0, 0);
      for id := 0 to throttleStat.Length
        invariant SteppedUpTo(throttleCfg[..], objStatus[..], was, p, id)
        invariant TallyAt(c, t, totalBw, id)
      {
        assert throttleCfg[..][id] == was.cfg[id] && objStatus[..][id] == was.status[id];
        c := AllocateInstance(id, p, was, t, c);
      }
      assert throttleCfg[..] == t.cfg && objStatus[..] == t.status;
    }

    /** The sum of the percentages of the classes in use. */
    method AllocDivide(ghost t: Table, priorityCnt: seq<uint16>) returns (allocDivide: nat)
      requires t.Settled() && ClassCounts(t, |t.cfg|, priorityCnt)
      ensures allocDivide == Divide(t)
    {
      var percent := [10, 20, 70];
      allocDivide := 0;
      for prio := 0 to 3
        invariant allocDivide == (if prio > 0 && ClassUsed(t, 0) then 10 else 0)
          + (if prio > 1 && ClassUsed(t, 1) then 20 else 0) + (if prio > 2 && ClassUsed(t, 2) then 70 else 0)
      {
        if priorityCnt[prio] > 0 {
          allocDivide := allocDivide + percent[prio];
        }
      }
    }

    /** The share computed for one instance that is not passed over. */
    method ServeInstance(ghost t: Table, id: nat, remainBw: int, g: Progress, allocDivide: nat) returns (deltaBw: nat)
      requires Valid() && t.Settled() && |t.cfg| == MAX_MAP_SIZE && id < MAX_MAP_SIZE
      requires throttleCfg[id] == t.cfg[id] && objStatus[id] == t.status[id] && !Skips(t, id)
      requires validObjCnt == All(t, Active) && ProgressAt(g, t, remainBw, id)
      requires allocDivide == Divide(t)
      modifies throttleCfg
      ensures deltaBw == Grant(t, remainBw, id)
      ensures throttleCfg[..] == old(throttleCfg[..])[id := t.cfg[id].(reqRate := t.cfg[id].reqRate + deltaBw)]
    {
      deltaBw := 0;
      FlagMeansAllPassedOver(t, id, g.reached, g.down, g.priorityCnt);
      if objStatus[id] == NEED {
        CountsAtNeed(t, id);
      }
      if remainBw > 0 && objStatus[id] == NEED && !g.allReached {
        deltaBw := EqualShare(remainBw, validObjCnt - g.reached - g.down);
        throttleCfg[id] := throttleCfg[id].(reqRate := throttleCfg[id].reqRate + deltaBw);
      }
      if g.allReached && remainBw > 0 && objStatus[id] == REACHED {
        var thisPrio := throttleCfg[id].priority;
        CountsAtReached(t, id);
        ClassCountIsReached(t, id, thisPrio);
        var percent := [10, 20, 70];
        assert percent[thisPrio] == Percent(thisPrio);
        var share := Whole(remainBw * percent[thisPrio], allocDivide);
        deltaBw := EqualShare(share, g.priorityCnt[thisPrio]);
        throttleCfg[id] := throttleCfg[id].(reqRate := throttleCfg[id].reqRate + deltaBw);
      }
    }

    /** The body of the last loop; `stop` is its early exit. */
    method DistributeInstance(ghost t: Table, id: nat, remainBw: int, g: Progress, allocDivide: nat)
      returns (g': Progress, stop: bool)
      requires Valid() && t.Settled() && |t.cfg| == MAX_MAP_SIZE && id < MAX_MAP_SIZE
      requires throttleCfg[id] == t.cfg[id] && objStatus[id] == t.status[id] && throttleStat[id] == t.stat[id]
      requires validObjCnt == All(t, Active) && ProgressAt(g, t, remainBw, id)
      requires allocDivide == Divide(t)
      modifies throttleCfg
      ensures throttleCfg[..]
           == old(throttleCfg[..])[id := t.cfg[id].(reqRate := t.cfg[id].reqRate + Grant(t, remainBw, id))]
      ensures ProgressAt(g', t, remainBw, id + 1)
      ensures stop <==> StopsAt(t, remainBw, id)
    {
      g' := g;
      if objStatus[id] == NEED && throttleStat[id].rate < throttleCfg[id].reqRate * 7 / 10 {
        PassOverStep(g, t, remainBw, id);
        var prio := throttleCfg[id].priority;
        g' := g'.(priorityCnt := g'.priorityCnt[prio := g'.priorityCnt[prio] - 1], reached := g'.reached + 1);
        if AllAccounted(g'.reached, g'.down, validObjCnt) {
          g' := g'.(allReached := true);
        }
        return g', false;
      }
      ServeStep(g, t, remainBw, id);
      var deltaBw := ServeInstance(t, id, remainBw, g, allocDivide);
      g' := g'.(remainBwVary := g'.remainBwVary - deltaBw);
      stop := g'.remainBwVary <= 0;
    }

    /** The rest of a round, with its running counters, flag and early exit. */
    method DistributePhase(c: Tally)
      requires Valid() && View().Settled() && TallyOf(c, View(), totalBw)
      requires validObjCnt == All(View(), Active)
      modifies throttleCfg
      ensures Valid() && View() == Phase2(old(View()), totalBw)
    {
      ghost var t := View();
      var remainBw := c.remainBw;
      var allocDivide := AllocDivide(t, c.priorityCnt);
      var g := Progress(c.reached, c.down, c.priorityCnt, AllAccounted(c.reached, c.down, validObjCnt), remainBw);
      ProgressStart(c, t, totalBw);

      var id, stop := 0, false;
      while id < throttleStat.Length && !stop
        invariant 0 <= id <= throttleStat.Length
        invariant ServedUpTo(throttleCfg[..], t, remainBw, id)
        invariant ProgressAt(g, t, remainBw, id)
        invariant Stop(t, totalBw) == if stop then id else StopFrom(t, remainBw, id)
      {
        assert throttleCfg[..][id] == t.cfg[id];
        g, stop := DistributeInstance(t, id, remainBw, g, allocDivide);
        id := id + 1;
      }
      ServedUpToIsServed(throttleCfg[..], t, remainBw, Stop(t, totalBw));
    }

    /** One pass of the endless loop in Run, after the lookup. */
    method RunRound(p: Params)
      requires LookedUp() && p.pace > 0
      modifies throttleCfg, objStatus
      ensures Valid() && View() == Round(old(View()), p, totalBw)
    {
      ghost var was := View();
      var c := AllocatePhase(p);
      ActiveUnchanged(was, p, MAX_MAP_SIZE);
      DistributePhase(c);
    }
  }
}
