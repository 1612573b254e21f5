/** One round of the bandwidth allocator (algproc/daemon_proc.go) as a function
    on the table of instances. The grants of phase 2 are defined here from plain
    counts over the table, with no running counter or flag. */
module Allocator {
  import opened Throttle

  // The values of ObjStatus after phase 1. DOWN is also the status of an inactive instance.
  const DOWN: nat := 0
  const NEED: nat := 1
  const REACHED: nat := 2

  /** The arguments of Run; the ratio is the fraction num/den. */
  datatype Params = Params(minBandwidth: nat, pace: nat, num: nat, den: nat)

  function Clip(val: nat, min: nat, max: nat): nat {
    if val < min then min else if val > max then max else val
  }

  /** Clip stays above its minimum unless the maximum is the smaller one and cuts. */
  lemma ClipAboveMin(val: nat, min: nat, max: nat)
    ensures Clip(val, min, max) >= min <==> (min <= max || val <= max || val < min)
  {
  }

  /** The step by which a request is raised or lowered. */
  function DeltaBw(reqRate: nat, pace: nat): (d: nat)
    requires pace > 0
    ensures d <= reqRate
    ensures reqRate >= pace ==> d >= 1
  {
    var d := reqRate / pace;
    assert reqRate < (d + 1) * pace;
    assert d <= d * pace <= reqRate;
    d
  }

  function AllocMinRate(p: Params, curRate: nat, reqRate: nat, lowRate: nat): (r: (nat, nat))
    requires p.pace > 0
  {
    if curRate * p.den < reqRate * p.num then
      (Clip(reqRate - DeltaBw(reqRate, p.pace), p.minBandwidth, reqRate), DOWN)
    else
      var rate := Clip(reqRate + DeltaBw(reqRate, p.pace), p.minBandwidth, lowRate);
      (rate, if rate < lowRate then NEED else REACHED)
  }

  /** The parallel arrays of EdtProcData. */
  datatype Table = Table(cfg: seq<ThrottleCfg>, stat: seq<ThrottleStat>, status: seq<nat>) {
    ghost predicate Valid() {
      && |cfg| == |stat| == |status|
      && forall i :: 0 <= i < |cfg| ==> cfg[i].priority <= 2
    }

    /** Phase 1 gave a status other than DOWN to active instances only. */
    ghost predicate Settled() {
      Valid() && forall i :: 0 <= i < |cfg| ==>
        status[i] <= REACHED && (stat[i].rate == 0 ==> status[i] == DOWN)
    }
  }

  /** What lookupEdtProcData records of an instance: a sampling period already
      seen in the last round carries no traffic. */
  function Fresh(last: ThrottleStat, now: ThrottleStat): ThrottleStat {
    if now.tStart != 0 && last.tStart == now.tStart then now.(rate := 0) else now
  }

  function Lookup(t: Table, stats: seq<ThrottleStat>, cfgs: seq<ThrottleCfg>): (r: Table)
    requires |t.stat| == |stats| == |cfgs|
  {
    var stat := seq(|stats|, i requires 0 <= i < |stats| => Fresh(t.stat[i], stats[i]));
    Table(cfgs, stat, seq(|stats|, i requires 0 <= i < |stats| => if stat[i].rate > 0 then 1 else 0))
  }

  // ---------------------------------------------------------------------
  // Phase 1
  // ---------------------------------------------------------------------

  function Stepped(t: Table, p: Params, i: nat): (nat, nat)
    requires t.Valid() && p.pace > 0 && i < |t.cfg|
  {
    if t.stat[i].rate > 0 then AllocMinRate(p, t.stat[i].rate, t.cfg[i].reqRate, t.cfg[i].lowRate)
    else (t.cfg[i].reqRate, DOWN)
  }

  function Phase1(t: Table, p: Params): (r: Table)
    requires t.Valid() && p.pace > 0
    ensures r.Settled() && |r.cfg| == |t.cfg|
  {
    Table(
      seq(|t.cfg|, i requires 0 <= i < |t.cfg| => t.cfg[i].(reqRate := Stepped(t, p, i).0)),
      t.stat,
      seq(|t.cfg|, i requires 0 <= i < |t.cfg| => Stepped(t, p, i).1))
  }

  // ---------------------------------------------------------------------
  // Counting
  // ---------------------------------------------------------------------

  datatype Kind = Active | Need | Reached | Down | Skipped | ReachedIn(prio: nat) | NeedIn(prio: nat) | SkippedIn(prio: nat)

  /** A NEED instance that uses less than 70% of its request is passed over. */
  predicate Skips(t: Table, i: nat)
    requires t.Valid() && i < |t.cfg|
  {
    t.status[i] == NEED && t.stat[i].rate < t.cfg[i].reqRate * 7 / 10
  }

  predicate Is(t: Table, kind: Kind, i: nat)
    requires t.Valid() && i < |t.cfg|
  {
    match kind
    case Active => t.stat[i].rate > 0
    case Need => t.status[i] == NEED
    case Reached => t.status[i] == REACHED
    case Down => t.stat[i].rate > 0 && t.status[i] == DOWN
    case Skipped => Skips(t, i)
    case ReachedIn(prio) => t.status[i] == REACHED && t.cfg[i].priority == prio
    case NeedIn(prio) => t.status[i] == NEED && t.cfg[i].priority == prio
    case SkippedIn(prio) => Skips(t, i) && t.cfg[i].priority == prio
  }

  /** How many of the first n instances are of a kind. */
  function Count(t: Table, kind: Kind, n: nat): (c: nat)
    requires t.Valid() && n <= |t.cfg|
    ensures c <= n
  {
    if n == 0 then 0 else Count(t, kind, n - 1) + if Is(t, kind, n - 1) then 1 else 0
  }

  function All(t: Table, kind: Kind): nat
    requires t.Valid()
  {
    Count(t, kind, |t.cfg|)
  }

  lemma {:induction false} CountMonotone(t: Table, kind: Kind, m: nat, n: nat)
    requires t.Valid() && m <= n <= |t.cfg|
    ensures Count(t, kind, m) <= Count(t, kind, n)
    decreases n
  {
    if m < n {
      CountMonotone(t, kind, m, n - 1);
    }
  }

  lemma {:induction false} CountsAdd(t: Table, n: nat)
    requires t.Settled() && n <= |t.cfg|
    ensures Count(t, Active, n) == Count(t, Need, n) + Count(t, Reached, n) + Count(t, Down, n)
    ensures Count(t, Skipped, n) <= Count(t, Need, n)
  {
    if n > 0 {
      CountsAdd(t, n - 1);
    }
  }

  lemma {:induction false} NeedClassesAdd(t: Table, n: nat)
    requires t.Settled() && n <= |t.cfg|
    ensures Count(t, Need, n) == Count(t, NeedIn(0), n) + Count(t, NeedIn(1), n) + Count(t, NeedIn(2), n)
  {
    if n > 0 {
      NeedClassesAdd(t, n - 1);
    }
  }

  lemma {:induction false} ReachedClassesAdd(t: Table, n: nat)
    requires t.Settled() && n <= |t.cfg|
    ensures Count(t, Reached, n) == Count(t, ReachedIn(0), n) + Count(t, ReachedIn(1), n) + Count(t, ReachedIn(2), n)
  {
    if n > 0 {
      ReachedClassesAdd(t, n - 1);
    }
  }

  lemma {:induction false} SkippedClassesAdd(t: Table, n: nat)
    requires t.Settled() && n <= |t.cfg|
    ensures Count(t, Skipped, n) == Count(t, SkippedIn(0), n) + Count(t, SkippedIn(1), n) + Count(t, SkippedIn(2), n)
  {
    if n > 0 {
      SkippedClassesAdd(t, n - 1);
    }
  }

  lemma ClassesAdd(t: Table, n: nat)
    requires t.Settled() && n <= |t.cfg|
    ensures Count(t, Need, n) == Count(t, NeedIn(0), n) + Count(t, NeedIn(1), n) + Count(t, NeedIn(2), n)
    ensures Count(t, Reached, n) == Count(t, ReachedIn(0), n) + Count(t, ReachedIn(1), n) + Count(t, ReachedIn(2), n)
    ensures Count(t, Skipped, n) == Count(t, SkippedIn(0), n) + Count(t, SkippedIn(1), n) + Count(t, SkippedIn(2), n)
  {
    NeedClassesAdd(t, n);
    ReachedClassesAdd(t, n);
    SkippedClassesAdd(t, n);
  }

  lemma {:induction false} SkippedInClass(t: Table, p: nat, n: nat)
    requires t.Settled() && n <= |t.cfg|
    ensures Count(t, SkippedIn(p), n) <= Count(t, NeedIn(p), n)
  {
    if n > 0 {
      SkippedInClass(t, p, n - 1);
    }
  }

  // ---------------------------------------------------------------------
  // Phase 2
  // ---------------------------------------------------------------------

  function SumReq(t: Table, n: nat): nat
    requires t.Valid() && n <= |t.cfg|
  {
    if n == 0 then 0
    else SumReq(t, n - 1) + if t.stat[n - 1].rate > 0 then t.cfg[n - 1].reqRate else 0
  }

  /** Sum of the requests of all active instances. */
  function ActiveSum(t: Table): nat
    requires t.Valid()
  {
    SumReq(t, |t.cfg|)
  }

  /** PriorityAllocPercent. */
  function Percent(prio: nat): nat {
    if prio == 0 then 10 else if prio == 1 then 20 else 70
  }

  predicate ClassUsed(t: Table, prio: nat)
    requires t.Valid() && prio <= 2
  {
    All(t, NeedIn(prio)) + All(t, ReachedIn(prio)) > 0
  }

  /** The percentages of the classes in use, added up. */
  function Divide(t: Table): nat
    requires t.Valid()
  {
    (if ClassUsed(t, 0) then Percent(0) else 0) +
    (if ClassUsed(t, 1) then Percent(1) else 0) +
    (if ClassUsed(t, 2) then Percent(2) else 0)
  }

  function Whole(x: nat, n: nat): nat
    requires n > 0
  {
    x / n
  }

  /** The part of the remainder that a priority class shares out. */
  function ClassShare(t: Table, remain: nat, prio: nat): nat
    requires t.Valid() && prio <= 2
  {
    if Divide(t) == 0 then 0 else Whole(remain * Percent(prio), Divide(t))
  }

  /** An equal share of x among n, rounded up. */
  function EqualShare(x: nat, n: nat): nat
    requires n > 0
  {
    Whole(x, n) + 1
  }

  /** What phase 2 adds to instance i, if it gets that far. A NEED instance shares
      the remainder equally with the NEED instances not passed over so far; a
      REACHED one shares within its class, once every NEED one was passed over. */
  function Grant(t: Table, remain: int, i: nat): nat
    requires t.Settled() && i < |t.cfg|
  {
    if remain <= 0 || Skips(t, i) then 0
    else if t.status[i] == NEED then
      CountsAtNeed(t, i);
      EqualShare(remain, All(t, Need) - Count(t, Skipped, i))
    else if t.status[i] == REACHED && Count(t, Skipped, i) == All(t, Need) then
      CountsAtReached(t, i);
      EqualShare(ClassShare(t, remain, t.cfg[i].priority), All(t, ReachedIn(t.cfg[i].priority)))
    else 0
  }

  /** Neither divisor is zero where it is used. */
  lemma CountsAtNeed(t: Table, i: nat)
    requires t.Settled() && i < |t.cfg|
    requires t.status[i] == NEED && !Skips(t, i)
    ensures All(t, Need) - Count(t, Skipped, i) >= 1
  {
    CountsAdd(t, i);
    CountMonotone(t, Need, i + 1, |t.cfg|);
  }

  lemma CountsAtReached(t: Table, i: nat)
    requires t.Settled() && i < |t.cfg| && t.status[i] == REACHED
    ensures All(t, ReachedIn(t.cfg[i].priority)) >= 1
    ensures ClassUsed(t, t.cfg[i].priority) && Divide(t) >= 10
  {
    CountMonotone(t, ReachedIn(t.cfg[i].priority), i + 1, |t.cfg|);
  }

  function Granted(t: Table, remain: int, n: nat): nat
    requires t.Settled() && n <= |t.cfg|
  {
    if n == 0 then 0 else Granted(t, remain, n - 1) + Grant(t, remain, n - 1)
  }

  /** How many of the first n instances are granted something. */
  function Grants(t: Table, remain: int, n: nat): (c: nat)
    requires t.Settled() && n <= |t.cfg|
    ensures c <= n
  {
    if n == 0 then 0 else Grants(t, remain, n - 1) + if Grant(t, remain, n - 1) > 0 then 1 else 0
  }

  /** Phase 2 stops after the first instance, not passed over, at which nothing remains. */
  predicate StopsAt(t: Table, remain: int, i: nat)
    requires t.Settled() && i < |t.cfg|
  {
    !Skips(t, i) && remain <= Granted(t, remain, i + 1)
  }

  function StopFrom(t: Table, remain: int, n: nat): (stop: nat)
    requires t.Settled() && n <= |t.cfg|
    ensures n <= stop <= |t.cfg|
    decreases |t.cfg| - n
  {
    if n == |t.cfg| then n
    else if StopsAt(t, remain, n) then n + 1
    else StopFrom(t, remain, n + 1)
  }

  function Served(t: Table, remain: int, stop: nat): (r: Table)
    requires t.Settled() && stop <= |t.cfg|
    ensures r.Valid() && |r.cfg| == |t.cfg|
  {
    t.(cfg := seq(|t.cfg|, i requires 0 <= i < |t.cfg| =>
      if i < stop then t.cfg[i].(reqRate := t.cfg[i].reqRate + Grant(t, remain, i)) else t.cfg[i]))
  }

  function Remain(t: Table, totalBw: nat): int
    requires t.Valid()
  {
    totalBw - ActiveSum(t)
  }

  function Stop(t: Table, totalBw: nat): nat
    requires t.Settled()
  {
    StopFrom(t, Remain(t, totalBw), 0)
  }

  function Phase2(t: Table, totalBw: nat): (r: Table)
    requires t.Settled()
    ensures r.Valid() && |r.cfg| == |t.cfg|
  {
    Served(t, Remain(t, totalBw), Stop(t, totalBw))
  }

  function Round(t: Table, p: Params, totalBw: nat): (r: Table)
    requires t.Valid() && p.pace > 0
    ensures r.Valid() && |r.cfg| == |t.cfg|
  {
    Phase2(Phase1(t, p), totalBw)
  }
}
