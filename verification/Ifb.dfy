/** The two actors of dhcifb.c that share one queue: ifb_xmit, which runs under the
    transmit lock, and the tasklet ifb_ri_tasklet, which only ever try-locks it.
    Each actor is cut into steps no larger than one access to what they share, and
    the steps interleave freely. (The tasklet's release of the lock is joined to its
    last access under it, which no one else can observe in between.) */
module Ifb {
  datatype Skb = Skb(len: nat, redirected: bool, iif: nat)

  datatype Lock = Free | ByXmit | ByTasklet | ByOther

  datatype XmitPc =
    | XIdle | XCount(skb: Skb) | XCheck(skb: Skb) | XQueue(skb: Skb) | XPend | XSchedule | XUnlock

  datatype TaskletPc =
    | TIdle | TPeek | TTryFirst | TSplice | TDrain | TDeliver(skb: Skb)
    | TTryLast | TCheck | TWake | TRetry | TSchedule

  /** The counters of the device and of the queue. */
  datatype Stats = Stats(
    rxPackets: nat, rxBytes: nat, rxDropped: nat, txPackets: nat, txBytes: nat, txDropped: nat)

  /** History: packets that came to ifb_xmit, those it queued, those taken from tq, and
      for each of the latter dealt with, whether its interface was found, and the
      interfaces that there were at the time. */
  datatype Log = Log(arrived: seq<Skb>, accepted: seq<Skb>, taken: seq<Skb>, found: seq<bool>, seen: seq<set<nat>>)

  /** `devs` are the interfaces that exist and `limit` is tx_queue_len. */
  datatype State = State(
    rq: seq<Skb>, tq: seq<Skb>, pending: bool, stopped: bool, scheduled: bool, lock: Lock,
    xmit: XmitPc, tasklet: TaskletPc, stats: Stats, log: Log, limit: nat, devs: set<nat>)

  function Initial(limit: nat, devs: set<nat>): State {
    State([], [], false, false, false, Free, XIdle, TIdle,
      Stats(0, 0, 0, 0, 0, 0), Log([], [], [], [], []), limit, devs)
  }

  function CountRx(c: Stats, p: Skb): Stats {
    c.(rxPackets := c.rxPackets + 1, rxBytes := c.rxBytes + p.len,
       rxDropped := c.rxDropped + if Refused(p) then 1 else 0)
  }

  function CountTx(c: Stats, p: Skb): Stats {
    c.(txPackets := c.txPackets + 1, txBytes := c.txBytes + p.len)
  }

  predicate SameRx(c: Stats, d: Stats) {
    c.rxPackets == d.rxPackets && c.rxBytes == d.rxBytes && c.rxDropped == d.rxDropped
  }

  predicate SameTx(c: Stats, d: Stats) {
    c.txPackets == d.txPackets && c.txBytes == d.txBytes && c.txDropped == d.txDropped
  }

  /** Only packets redirected from a known interface are queued. */
  predicate Refused(p: Skb) {
    !p.redirected || p.iif == 0
  }

  /** ifb_xmit; the core takes the lock and calls it only on a running queue. */
  function XmitStep(s: State, skb: Skb): (n: State)
    ensures n.limit == s.limit && n.tasklet == s.tasklet
    ensures n.log.taken == s.log.taken && n.log.found == s.log.found && n.log.seen == s.log.seen
    ensures SameTx(s.stats, n.stats)
  {
    match s.xmit
    case XIdle =>
      if s.lock.Free? && !s.stopped then s.(lock := ByXmit, xmit := XCount(skb)) else s
    case XCount(p) =>
      s.(stats := CountRx(s.stats, p), log := s.log.(arrived := s.log.arrived + [p]),
         xmit := if Refused(p) then XUnlock else XCheck(p))
    case XCheck(p) => s.(stopped := s.stopped || |s.rq| >= s.limit, xmit := XQueue(p))
    case XQueue(p) => s.(rq := s.rq + [p], log := s.log.(accepted := s.log.accepted + [p]), xmit := XPend)
    case XPend => if s.pending then s.(xmit := XUnlock) else s.(pending := true, xmit := XSchedule)
    case XSchedule => s.(scheduled := true, xmit := XUnlock)
    case XUnlock => s.(lock := Free, xmit := XIdle)
  }

  function Take(s: State): State
    requires s.tq != []
  {
    s.(tq := s.tq[1..], log := s.log.(taken := s.log.taken + [s.tq[0]]),
       stats := CountTx(s.stats, s.tq[0]), tasklet := TDeliver(s.tq[0]))
  }

  function Deliver(s: State, p: Skb): State {
    var log := s.log.(seen := s.log.seen + [s.devs]);
    if p.iif in s.devs then s.(log := log.(found := log.found + [true]), tasklet := TDrain)
    else s.(log := log.(found := log.found + [false]),
            stats := s.stats.(txDropped := s.stats.txDropped + 1),
            tasklet := if s.tq != [] then TRetry else TTryLast)
  }

  /** ifb_ri_tasklet; from TIdle it starts when it has been scheduled. */
  function TaskletStep(s: State): (n: State)
    ensures n.limit == s.limit && n.xmit == s.xmit
  {
    match s.tasklet
    case TIdle => if s.scheduled then s.(scheduled := false, tasklet := TPeek) else s
    case TPeek => s.(tasklet := if s.tq == [] then TTryFirst else TDrain)
    case TTryFirst => if s.lock.Free? then s.(lock := ByTasklet, tasklet := TSplice) else s.(tasklet := TRetry)
    case TSplice => s.(tq := s.tq + s.rq, rq := [], lock := Free, tasklet := TDrain)
    case TDrain => if s.tq == [] then s.(tasklet := TTryLast) else Take(s)
    case TDeliver(p) => Deliver(s, p)
    case TTryLast => if s.lock.Free? then s.(lock := ByTasklet, tasklet := TCheck) else s.(tasklet := TRetry)
    case TCheck => if s.rq == [] then s.(pending := false, tasklet := TWake) else s.(lock := Free, tasklet := TRetry)
    case TWake => s.(stopped := false, lock := Free, tasklet := TIdle)
    case TRetry => s.(pending := true, tasklet := TSchedule)
    case TSchedule => s.(scheduled := true, tasklet := TIdle)
  }

  /** One step of an actor, or of the surroundings: someone else takes or leaves the
      transmit lock, or the set of interfaces changes. */
  datatype Action = Xmit(skb: Skb) | Tasklet | OtherLock | OtherUnlock | Devices(devs: set<nat>)

  function Next(s: State, a: Action): (n: State)
    ensures n.limit == s.limit
  {
    match a
    case Xmit(skb) => XmitStep(s, skb)
    case Tasklet => TaskletStep(s)
    case OtherLock => if s.lock.Free? then s.(lock := ByOther) else s
    case OtherUnlock => if s.lock.ByOther? then s.(lock := Free) else s
    case Devices(devs) => s.(devs := devs)
  }

  function Exec(s: State, acts: seq<Action>): (n: State)
    ensures n.limit == s.limit
  {
    if acts == [] then s else Next(Exec(s, acts[..|acts| - 1]), acts[|acts| - 1])
  }

  // ---------------------------------------------------------------------
  // What every step keeps
  // ---------------------------------------------------------------------

  predicate TaskletHolds(pc: TaskletPc) {
    pc.TSplice? || pc.TCheck? || pc.TWake?
  }

  predicate Locked(s: State) {
    && (s.lock.ByXmit? <==> !s.xmit.XIdle?)
    && (s.lock.ByTasklet? <==> TaskletHolds(s.tasklet))
  }

  /** The tasklet has begun and has not yet cleared the pending flag. */
  predicate Working(pc: TaskletPc) {
    !pc.TIdle? && !pc.TWake?
  }

  /** The pending flag is up exactly while the tasklet is due, at work, or about to
      be scheduled by ifb_xmit; while it is down nothing waits. */
  predicate Signalled(s: State) {
    && (s.pending <==> s.scheduled || Working(s.tasklet) || s.xmit.XSchedule?)
    && (!s.pending ==> s.tq == [] && (s.rq == [] || s.xmit.XPend?))
    && (!s.pending && s.stopped ==> s.xmit.XQueue? || s.xmit.XPend? || s.tasklet.TWake?)
    && !(s.scheduled && Working(s.tasklet)) && !(s.scheduled && s.xmit.XSchedule?)
    && !(Working(s.tasklet) && s.xmit.XSchedule?)
    && (s.tasklet.TWake? ==> !s.pending)
  }

  /** The tasklet looks at the transmit queue again only once tq is empty. */
  predicate Emptied(s: State) {
    s.tasklet.TTryFirst? || s.tasklet.TSplice? || s.tasklet.TTryLast? || s.tasklet.TCheck? ==> s.tq == []
  }

  predicate Bounded(s: State) {
    && |s.rq| <= s.limit + 1
    && (!s.stopped ==> |s.rq| <= s.limit)
    && (s.tasklet.TWake? ==> s.rq == [])
    && (s.xmit.XCount? || s.xmit.XCheck? ==> !s.stopped)
    && (s.xmit.XQueue? ==> |s.rq| <= s.limit && (s.stopped <==> |s.rq| == s.limit))
  }

  predicate InOrder(s: State) {
    s.log.accepted == s.log.taken + s.tq + s.rq
  }

  function Length(q: seq<Skb>): nat {
    if q == [] then 0 else Length(q[..|q| - 1]) + q[|q| - 1].len
  }

  function Missed(found: seq<bool>): nat {
    if found == [] then 0 else Missed(found[..|found| - 1]) + if found[|found| - 1] then 0 else 1
  }

  /** The packets that came redirected from a known interface. */
  function Redirected(q: seq<Skb>): seq<Skb> {
    if q == [] then []
    else
      var p := q[|q| - 1];
      Redirected(q[..|q| - 1]) + if p.redirected && p.iif != 0 then [p] else []
  }

  /** What ifb_xmit has queued, with the packet it is about to queue. */
  function Accepting(s: State): seq<Skb> {
    match s.xmit
    case XCheck(p) => s.log.accepted + [p]
    case XQueue(p) => s.log.accepted + [p]
    case _ => s.log.accepted
  }

  predicate CountedRx(s: State) {
    && Accepting(s) == Redirected(s.log.arrived)
    && s.stats.rxPackets == |s.log.arrived| && s.stats.rxBytes == Length(s.log.arrived)
    && s.stats.rxPackets == s.stats.rxDropped + |Redirected(s.log.arrived)|
  }

  predicate CountedTx(s: State) {
    && Taken(s.stats, s.log.taken, s.log.found)
    && |s.log.taken| == |s.log.found| + (if s.tasklet.TDeliver? then 1 else 0)
    && |s.log.seen| == |s.log.found|
    && (s.tasklet.TDeliver? ==> s.log.taken[|s.log.taken| - 1] == s.tasklet.skb)
  }

  /** A packet was found an interface exactly if its interface was among those seen. */
  predicate Told(taken: seq<Skb>, found: seq<bool>, seen: seq<set<nat>>) {
    && |seen| == |found| <= |taken|
    && forall k :: 0 <= k < |found| ==> ToldAt(taken, found, seen, k)
  }

  predicate ToldAt(taken: seq<Skb>, found: seq<bool>, seen: seq<set<nat>>, k: nat)
    requires k < |found| == |seen| <= |taken|
  {
    found[k] <==> taken[k].iif in seen[k]
  }

  predicate Truthful(s: State) {
    Told(s.log.taken, s.log.found, s.log.seen)
  }

  predicate Taken(c: Stats, taken: seq<Skb>, found: seq<bool>) {
    c.txPackets == |taken| && c.txBytes == Length(taken) && c.txDropped == Missed(found)
  }

  predicate Inv(s: State) {
    Locked(s) && Signalled(s) && Emptied(s) && Bounded(s) && InOrder(s) && CountedRx(s) && CountedTx(s) && Truthful(s)
  }

  lemma XmitKeepsLock(s: State, skb: Skb)
    requires Locked(s)
    ensures Locked(XmitStep(s, skb))
  {
    match s.xmit
    case XIdle => case XCount(_) => case XCheck(_) => case XQueue(_) => case XPend => case XSchedule => case XUnlock =>
  }

  lemma TaskletKeepsLock(s: State)
    requires Locked(s)
    ensures Locked(TaskletStep(s))
  {
    match s.tasklet
    case TIdle => case TPeek => case TTryFirst => case TSplice => case TDrain => case TDeliver(_) =>
    case TTryLast => case TCheck => case TWake => case TRetry => case TSchedule =>
  }

  lemma XmitKeepsBound(s: State, skb: Skb)
    requires Locked(s) && Bounded(s)
    ensures Bounded(XmitStep(s, skb))
  {
    match s.xmit
    case XIdle => case XCount(_) => case XCheck(_) => case XQueue(_) => case XPend => case XSchedule => case XUnlock =>
  }

  lemma TaskletKeepsBound(s: State)
    requires Locked(s) && Bounded(s)
    ensures Bounded(TaskletStep(s))
  {
    match s.tasklet
    case TIdle => case TPeek => case TTryFirst => case TSplice => case TDrain => case TDeliver(_) =>
    case TTryLast => case TCheck => case TWake => case TRetry => case TSchedule =>
  }

  lemma XmitKeepsSignal(s: State, skb: Skb)
    requires Locked(s) && Emptied(s) && Signalled(s) && Bounded(s)
    ensures Emptied(XmitStep(s, skb)) && Signalled(XmitStep(s, skb))
  {
    match s.xmit
    case XIdle => case XCount(_) => case XCheck(_) => case XQueue(_) => case XPend => case XSchedule => case XUnlock =>
  }

  lemma TaskletKeepsSignal(s: State)
    requires Locked(s) && Emptied(s) && Signalled(s) && Bounded(s)
    ensures Emptied(TaskletStep(s)) && Signalled(TaskletStep(s))
  {
    match s.tasklet
    case TIdle => case TPeek => case TTryFirst => case TSplice => case TDrain => case TDeliver(_) =>
    case TTryLast => case TCheck => case TWake => case TRetry => case TSchedule =>
  }

  lemma XmitKeepsOrder(s: State, skb: Skb)
    requires InOrder(s)
    ensures InOrder(XmitStep(s, skb))
  {
    if s.xmit.XQueue? {
      assert s.log.taken + s.tq + (s.rq + [s.xmit.skb]) == s.log.taken + s.tq + s.rq + [s.xmit.skb];
    }
    match s.xmit
    case XIdle => case XCount(_) => case XCheck(_) => case XQueue(_) => case XPend => case XSchedule => case XUnlock =>
  }

  lemma TaskletKeepsOrder(s: State)
    requires InOrder(s)
    ensures InOrder(TaskletStep(s))
  {
    if s.tasklet.TSplice? {
      assert s.log.taken + (s.tq + s.rq) + [] == s.log.taken + s.tq + s.rq;
    } else if s.tasklet.TDrain? && s.tq != [] {
      assert s.log.taken + [s.tq[0]] + s.tq[1..] == s.log.taken + s.tq;
    }
    match s.tasklet
    case TIdle => case TPeek => case TTryFirst => case TSplice => case TDrain => case TDeliver(_) =>
    case TTryLast => case TCheck => case TWake => case TRetry => case TSchedule =>
  }

  lemma RedirectedOneMore(q: seq<Skb>, p: Skb)
    ensures Redirected(q + [p]) == Redirected(q) + if p.redirected && p.iif != 0 then [p] else []
  {
    assert (q + [p])[..|q|] == q;
  }

  lemma CountKeepsRx(s: State, p: Skb)
    requires CountedRx(s) && s.xmit == XCount(p)
    ensures CountedRx(XmitStep(s, p))
  {
    RedirectedOneMore(s.log.arrived, p);
    LengthOfOneMore(s.log.arrived, p);
  }

  lemma XmitKeepsCounts(s: State, skb: Skb)
    requires CountedRx(s)
    ensures CountedRx(XmitStep(s, skb))
  {
    match s.xmit
    case XCount(p) => CountKeepsRx(s, p);
    case XIdle => case XCheck(_) => case XQueue(_) => case XPend => case XSchedule => case XUnlock =>
  }

  lemma TakeKeepsCounts(s: State)
    requires CountedTx(s) && s.tq != [] && !s.tasklet.TDeliver?
    ensures CountedTx(Take(s))
  {
    LengthOfOneMore(s.log.taken, s.tq[0]);
  }

  lemma DeliverKeepsCounts(s: State, p: Skb)
    requires CountedTx(s) && s.tasklet.TDeliver?
    ensures CountedTx(Deliver(s, p))
  {
    MissedOneMore(s.log.found, p.iif in s.devs);
  }

  lemma ToldOneTaken(taken: seq<Skb>, found: seq<bool>, seen: seq<set<nat>>, p: Skb)
    requires Told(taken, found, seen)
    ensures Told(taken + [p], found, seen)
  {
    forall k | 0 <= k < |found| ensures ToldAt(taken + [p], found, seen, k) {
      assert ToldAt(taken, found, seen, k);
    }
  }

  lemma ToldOneMore(taken: seq<Skb>, found: seq<bool>, seen: seq<set<nat>>, devs: set<nat>)
    requires Told(taken, found, seen) && |found| == |taken| - 1
    ensures Told(taken, found + [taken[|taken| - 1].iif in devs], seen + [devs])
  {
    var found', seen' := found + [taken[|taken| - 1].iif in devs], seen + [devs];
    forall k | 0 <= k < |found'| ensures ToldAt(taken, found', seen', k) {
      assert k < |found| ==> ToldAt(taken, found, seen, k);
    }
  }

  lemma TakeStaysTruthful(s: State)
    requires Truthful(s) && s.tq != []
    ensures Truthful(Take(s))
  {
    ToldOneTaken(s.log.taken, s.log.found, s.log.seen, s.tq[0]);
  }

  lemma DeliverStaysTruthful(s: State, p: Skb)
    requires Truthful(s) && CountedTx(s) && s.tasklet.TDeliver? && p == s.tasklet.skb
    ensures Truthful(Deliver(s, p))
  {
    ToldOneMore(s.log.taken, s.log.found, s.log.seen, s.devs);
  }

  lemma TaskletStaysTruthful(s: State)
    requires Truthful(s) && CountedTx(s)
    ensures Truthful(TaskletStep(s))
  {
    if s.tasklet.TDrain? {
      if s.tq != [] {
        TakeStaysTruthful(s);
      }
    } else if s.tasklet.TDeliver? {
      DeliverStaysTruthful(s, s.tasklet.skb);
    }
  }

  /** The tasklet leaves what ifb_xmit counts alone. */
  lemma TaskletLeavesRx(s: State)
    ensures var n := TaskletStep(s);
      n.log.arrived == s.log.arrived && n.log.accepted == s.log.accepted && SameRx(s.stats, n.stats)
  {
    match s.tasklet
    case TIdle => case TPeek => case TTryFirst => case TSplice => case TDrain => case TDeliver(_) =>
    case TTryLast => case TCheck => case TWake => case TRetry => case TSchedule =>
  }

  lemma TaskletKeepsRx(s: State)
    requires CountedRx(s)
    ensures CountedRx(TaskletStep(s))
  {
    TaskletLeavesRx(s);
  }

  lemma XmitStaysTruthful(s: State, skb: Skb)
    requires Truthful(s)
    ensures Truthful(XmitStep(s, skb))
  {
  }

  lemma TaskletKeepsCounts(s: State)
    requires CountedTx(s)
    ensures CountedTx(TaskletStep(s))
  {
    if s.tasklet.TDrain? {
      if s.tq != [] {
        TakeKeepsCounts(s);
      }
    } else if s.tasklet.TDeliver? {
      DeliverKeepsCounts(s, s.tasklet.skb);
    }
  }

  lemma LengthOfOneMore(q: seq<Skb>, p: Skb)
    ensures Length(q + [p]) == Length(q) + p.len
  {
    assert (q + [p])[..|q|] == q;
  }

  lemma MissedOneMore(found: seq<bool>, b: bool)
    ensures Missed(found + [b]) == Missed(found) + if b then 0 else 1
  {
    assert (found + [b])[..|found|] == found;
  }

  lemma NextKeepsInv(s: State, a: Action)
    requires Inv(s)
    ensures Inv(Next(s, a))
  {
    match a
    case Xmit(skb) =>
      XmitKeepsLock(s, skb); XmitKeepsBound(s, skb); XmitKeepsSignal(s, skb);
      XmitKeepsOrder(s, skb); XmitKeepsCounts(s, skb); XmitStaysTruthful(s, skb);
    case Tasklet =>
      TaskletKeepsLock(s); TaskletKeepsBound(s); TaskletKeepsSignal(s);
      TaskletKeepsOrder(s); TaskletKeepsCounts(s); TaskletKeepsRx(s);
      TaskletStaysTruthful(s);
    case OtherLock =>
    case OtherUnlock =>
    case Devices(_) =>
  }

  lemma {:induction false} ExecKeepsInv(s: State, acts: seq<Action>)
    requires Inv(s)
    ensures Inv(Exec(s, acts))
  {
    if acts != [] {
      ExecKeepsInv(s, acts[..|acts| - 1]);
      NextKeepsInv(Exec(s, acts[..|acts| - 1]), acts[|acts| - 1]);
    }
  }

  // ---------------------------------------------------------------------
  // Safety over every interleaving
  // ---------------------------------------------------------------------

  function Reach(limit: nat, devs: set<nat>, acts: seq<Action>): State {
    Exec(Initial(limit, devs), acts)
  }

  lemma ReachKeepsInv(limit: nat, devs: set<nat>, acts: seq<Action>)
    ensures Inv(Reach(limit, devs, acts))
  {
    ExecKeepsInv(Initial(limit, devs), acts);
  }

  /** First in, first out, and nothing lost: what was taken from tq, followed by what tq
      and rq hold, is what came redirected from a known interface, in that order; and
      the device counters account for every packet that came. */
  lemma FifoAndConservation(limit: nat, devs: set<nat>, acts: seq<Action>)
    ensures var s := Reach(limit, devs, acts);
      && s.log.accepted == s.log.taken + s.tq + s.rq
      && (s.xmit.XIdle? ==> s.log.accepted == Redirected(s.log.arrived))
      && s.stats.rxPackets == |s.log.arrived| && s.stats.rxBytes == Length(s.log.arrived)
      && (s.xmit.XIdle? ==> s.stats.rxPackets == s.stats.rxDropped + |s.rq| + |s.tq| + s.stats.txPackets)
      && (!s.tasklet.TDeliver? ==> s.stats.txPackets == Forwarded(s.log.found) + s.stats.txDropped)
      && s.stats.txBytes == Length(s.log.taken)
  {
    ReachKeepsInv(limit, devs, acts);
    FoundOrMissed(Reach(limit, devs, acts).log.found);
  }

  /** How many of the packets had no interface among those seen. */
  function Unserved(taken: seq<Skb>, seen: seq<set<nat>>): nat
    requires |seen| <= |taken|
  {
    if seen == [] then 0
    else
      var n := |seen| - 1;
      Unserved(taken, seen[..n]) + if taken[n].iif in seen[n] then 0 else 1
  }

  lemma {:induction false} MissedAreUnserved(log: Log, n: nat)
    requires Told(log.taken, log.found, log.seen) && n <= |log.found|
    ensures Missed(log.found[..n]) == Unserved(log.taken, log.seen[..n])
  {
    if n > 0 {
      MissedAreUnserved(log, n - 1);
      assert ToldAt(log.taken, log.found, log.seen, n - 1);
      assert log.found[..n][..n - 1] == log.found[..n - 1] && log.seen[..n][..n - 1] == log.seen[..n - 1];
    }
  }

  /** A packet is forwarded exactly if its interface exists when its turn comes, and
      tx_dropped counts exactly the packets for which it does not. */
  lemma DroppedAreUnserved(limit: nat, devs: set<nat>, acts: seq<Action>)
    ensures var s := Reach(limit, devs, acts);
      && |s.log.seen| == |s.log.found| <= |s.log.taken|
      && (forall k :: 0 <= k < |s.log.found| ==> (s.log.found[k] <==> s.log.taken[k].iif in s.log.seen[k]))
      && s.stats.txDropped == Unserved(s.log.taken, s.log.seen)
  {
    var s := Reach(limit, devs, acts);
    ReachKeepsInv(limit, devs, acts);
    MissedAreUnserved(s.log, |s.log.found|);
    assert s.log.found[..|s.log.found|] == s.log.found && s.log.seen[..|s.log.seen|] == s.log.seen;
    forall k | 0 <= k < |s.log.found| ensures s.log.found[k] <==> s.log.taken[k].iif in s.log.seen[k] {
      assert ToldAt(s.log.taken, s.log.found, s.log.seen, k);
    }
  }

  predicate Always(s: State, devs: set<nat>) {
    s.devs == devs && forall d :: d in s.log.seen ==> d == devs
  }

  lemma TaskletStepAlways(s: State, devs: set<nat>)
    requires Always(s, devs)
    ensures Always(TaskletStep(s), devs)
  {
    match s.tasklet
    case TIdle => case TPeek => case TTryFirst => case TSplice => case TDrain => case TDeliver(_) =>
    case TTryLast => case TCheck => case TWake => case TRetry => case TSchedule =>
  }

  lemma {:induction false} SameInterfaces(limit: nat, devs: set<nat>, acts: seq<Action>)
    requires forall a :: a in acts ==> !a.Devices?
    ensures Always(Reach(limit, devs, acts), devs)
  {
    if acts != [] {
      var s := Reach(limit, devs, acts[..|acts| - 1]);
      SameInterfaces(limit, devs, acts[..|acts| - 1]);
      TaskletStepAlways(s, devs);
      assert acts[|acts| - 1] in acts;
    }
  }

  /** With the same interfaces throughout, those decide for every packet. */
  lemma FoundExactly(limit: nat, devs: set<nat>, acts: seq<Action>)
    requires forall a :: a in acts ==> !a.Devices?
    ensures var s := Reach(limit, devs, acts);
      && |s.log.found| <= |s.log.taken|
      && forall k :: 0 <= k < |s.log.found| ==> (s.log.found[k] <==> s.log.taken[k].iif in devs)
  {
    var s := Reach(limit, devs, acts);
    DroppedAreUnserved(limit, devs, acts);
    SameInterfaces(limit, devs, acts);
    forall k | 0 <= k < |s.log.found| ensures s.log.found[k] <==> s.log.taken[k].iif in devs {
      assert s.log.seen[k] in s.log.seen;
    }
  }

  function Forwarded(found: seq<bool>): nat {
    if found == [] then 0 else Forwarded(found[..|found| - 1]) + if found[|found| - 1] then 1 else 0
  }

  lemma {:induction false} FoundOrMissed(found: seq<bool>)
    ensures Forwarded(found) + Missed(found) == |found|
  {
    if found != [] {
      FoundOrMissed(found[..|found| - 1]);
    }
  }

  /** No lost wake-up: whenever the transmit lock is free and packets wait or the
      queue is stopped, the flag is up and the tasklet is due or at work. */
  lemma NoLostWakeup(limit: nat, devs: set<nat>, acts: seq<Action>)
    ensures var s := Reach(limit, devs, acts);
      && (s.lock.Free? && (s.rq != [] || s.tq != [] || s.stopped) ==> s.pending)
      && (s.lock.Free? && s.pending ==> s.scheduled || Working(s.tasklet))
      && (s.tasklet.TRetry? ==> s.pending)
  {
    ReachKeepsInv(limit, devs, acts);
  }

  /** The receive queue holds at most one packet more than tx_queue_len, and that
      one only while it is stopped. */
  lemma QueueBounded(limit: nat, devs: set<nat>, acts: seq<Action>)
    ensures var s := Reach(limit, devs, acts);
      && |s.rq| <= limit + 1
      && (|s.rq| == limit + 1 ==> s.stopped)
  {
    ReachKeepsInv(limit, devs, acts);
  }

  // ---------------------------------------------------------------------
  // Progress: left alone, the tasklet delivers everything
  // ---------------------------------------------------------------------

  /** No ifb_xmit is under way and nobody else holds the lock. */
  predicate Alone(s: State) {
    s.xmit.XIdle? && !s.lock.ByOther?
  }

  predicate AtRest(s: State) {
    s.tasklet.TIdle? && !s.scheduled
  }

  /** How far the tasklet is from looking at rq again, when tq is empty. */
  function Position(pc: TaskletPc): nat {
    match pc
    case TDeliver(_) => 18 case TDrain => 17 case TTryLast => 16 case TCheck => 15
    case TRetry => 13 case TSchedule => 12 case TIdle => 11
    case TPeek => 10 case TTryFirst => 9 case TSplice => 8 case TWake => 2
  }

  /** A bound on the steps to rest. A packet in rq costs two rounds, one in tq one. */
  function Rank(s: State): nat {
    40 * |s.rq| + 20 * |s.tq| +
    if s.rq == [] && s.tq == [] then
      (match s.tasklet
       case TDeliver(_) => 7 case TDrain => 6 case TTryLast => 5 case TCheck => 4
       case TWake => 2
       case TIdle => (if s.scheduled then 11 else 0)
       case _ => Position(s.tasklet))
    else if s.tq == [] then Position(s.tasklet)
    else (match s.tasklet case TDrain => 1 case TDeliver(_) => 14 case _ => Position(s.tasklet))
  }

  lemma TaskletAdvances(s: State)
    requires Locked(s) && Signalled(s) && Emptied(s) && Bounded(s) && Alone(s) && !AtRest(s)
    ensures Alone(TaskletStep(s)) && Rank(TaskletStep(s)) < Rank(s)
  {
    match s.tasklet
    case TIdle => case TPeek => case TTryFirst => case TSplice => case TDrain => case TDeliver(_) =>
    case TTryLast => case TCheck => case TWake => case TRetry => case TSchedule =>
  }

  function Tasklets(s: State, n: nat): State
    decreases n
  {
    if n == 0 then s else Tasklets(TaskletStep(s), n - 1)
  }

  /** At rest with all that `s` had accepted taken, nothing waiting, and the queue running. */
  predicate Drained(s: State, end: State) {
    && AtRest(end) && end.rq == [] && end.tq == [] && !end.pending && !end.stopped
    && end.log.taken == end.log.accepted == s.log.accepted
  }

  /** From any reachable state, once ifb_xmit pauses, a bounded number of tasklet
      steps, through however many rescheduled runs, empties both queues, clears the
      flag and restarts the queue; everything ever queued has then been taken. */
  lemma {:induction false} TaskletDrains(s: State)
    requires Inv(s) && Alone(s)
    ensures exists n: nat {:trigger Tasklets(s, n)} :: n <= Rank(s) && Drained(s, Tasklets(s, n))
    decreases Rank(s)
  {
    if AtRest(s) {
      RestIsDrained(s);
      assert Tasklets(s, 0) == s;
    } else {
      var t := TaskletStep(s);
      TaskletAdvances(s);
      TaskletLeavesRx(s);
      NextKeepsInv(s, Tasklet);
      TaskletDrains(t);
      var n: nat :| n <= Rank(t) && Drained(t, Tasklets(t, n));
      assert Tasklets(s, n + 1) == Tasklets(t, n);
    }
  }

  lemma RestIsDrained(s: State)
    requires Inv(s) && Alone(s) && AtRest(s)
    ensures Drained(s, s)
  {
    assert s.log.taken + [] + [] == s.log.taken;
  }

  // ---------------------------------------------------------------------
  // Whole calls, uninterrupted
  // ---------------------------------------------------------------------

  function Stage(pc: TaskletPc): nat {
    match pc
    case TPeek => 23 case TTryFirst => 22 case TSplice => 21
    case TDrain => 10 case TDeliver(_) => 10
    case TTryLast => 8 case TCheck => 7 case TWake => 6
    case TRetry => 3 case TSchedule => 2 case TIdle => 0
  }

  predicate Closer(n: State, s: State) {
    || Stage(n.tasklet) < Stage(s.tasklet)
    || (Stage(n.tasklet) == Stage(s.tasklet) && |n.tq| < |s.tq|)
    || (Stage(n.tasklet) == Stage(s.tasklet) && |n.tq| == |s.tq| && s.tasklet.TDeliver? && !n.tasklet.TDeliver?)
  }

  /** Within one activation every step gets closer to the return. */
  lemma StepCloser(s: State)
    requires !s.tasklet.TIdle?
    ensures Closer(TaskletStep(s), s)
  {
    match s.tasklet
    case TPeek => case TTryFirst => case TSplice => case TDrain => case TDeliver(_) =>
    case TTryLast => case TCheck => case TWake => case TRetry => case TSchedule =>
  }

  /** Before a try-lock someone else leaves the lock, or takes it. */
  function Seen(s: State, first: bool, last: bool): State {
    match s.tasklet
    case TTryFirst => Next(s, if first then OtherUnlock else OtherLock)
    case TTryLast => Next(s, if last then OtherUnlock else OtherLock)
    case _ => s
  }

  /** The rest of one activation of the tasklet, up to its return; `first` and `last`
      say whether it finds the lock left by others at its two try-locks. */
  function Finish(s: State, first: bool, last: bool): State
    decreases Stage(s.tasklet), |s.tq|, if s.tasklet.TDeliver? then 1 else 0
  {
    if s.tasklet.TIdle? then s else
    StepCloser(Seen(s, first, last));
    Finish(TaskletStep(Seen(s, first, last)), first, last)
  }

  /** The rest of one call of ifb_xmit. */
  function Return(s: State, skb: Skb, fuel: nat): State
    decreases fuel
  {
    if s.xmit.XIdle? || fuel == 0 then s else Return(XmitStep(s, skb), skb, fuel - 1)
  }

  /** A whole activation is one of the interleavings covered above. */
  lemma {:induction false} FinishKeepsInv(s: State, first: bool, last: bool)
    requires Inv(s)
    ensures Inv(Finish(s, first, last)) && Finish(s, first, last).tasklet.TIdle?
    decreases Stage(s.tasklet), |s.tq|, if s.tasklet.TDeliver? then 1 else 0
  {
    if !s.tasklet.TIdle? {
      ActivationStep(s, first, last);
      FinishKeepsInv(TaskletStep(Seen(s, first, last)), first, last);
    }
  }

  lemma ActivationStep(s: State, first: bool, last: bool)
    requires Inv(s) && !s.tasklet.TIdle?
    ensures Inv(TaskletStep(Seen(s, first, last))) && Closer(TaskletStep(Seen(s, first, last)), s)
  {
    var seen := Seen(s, first, last);
    SeenKeepsInv(s, first, last);
    SeenIsAsClose(s, first, last);
    StepCloser(seen);
    NextKeepsInv(seen, Tasklet);
    assert Next(seen, Tasklet) == TaskletStep(seen);
  }

  lemma SeenIsAsClose(s: State, first: bool, last: bool)
    ensures Seen(s, first, last).tasklet == s.tasklet && Seen(s, first, last).tq == s.tq
  {
  }

  lemma SeenKeepsInv(s: State, first: bool, last: bool)
    requires Inv(s)
    ensures Inv(Seen(s, first, last))
  {
    NextKeepsInv(s, OtherLock);
    NextKeepsInv(s, OtherUnlock);
  }
}
