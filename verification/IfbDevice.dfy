/** The queue of dhcifb.c as the driver runs it: ifb_xmit and ifb_ri_tasklet as
    whole calls on mutable fields, each proved to be the sequence of atomic steps
    that module Ifb interleaves. */
module IfbDevice {
  import opened Ifb

  class IfbQueue {
    var rq: seq<Skb>
    var tq: seq<Skb>
    var taskletPending: bool
    var stopped: bool
    var scheduled: bool
    var lockedElsewhere: bool
    var stats: Stats
    var devs: set<nat>
    const txQueueLen: nat
    ghost var log: Log

    constructor (txQueueLen: nat, devs: set<nat>)
      ensures View() == Initial(txQueueLen, devs)
    {
      rq, tq, taskletPending, stopped, scheduled, lockedElsewhere := [], [], false, false, false, false;
      stats, this.devs, this.txQueueLen := Stats(0, 0, 0, 0, 0, 0), devs, txQueueLen;
      log := Log([], [], [], [], []);
    }

    ghost function At(lock: Lock, xmit: XmitPc, tasklet: TaskletPc): State
      reads this
    {
      State(rq, tq, taskletPending, stopped, scheduled, lock, xmit, tasklet, stats, log, txQueueLen, devs)
    }

    /** Between calls. */
    ghost function View(): State
      reads this
    {
      At(if lockedElsewhere then ByOther else Free, XIdle, TIdle)
    }

    /** Called under the transmit lock, and only while the queue runs. */
    method IfbXmit(skb: Skb)
      requires !stopped && !lockedElsewhere
      modifies this
      ensures View() == Return(XmitStep(old(View()), skb), skb, 6)
    {
      ghost var end := Return(At(ByXmit, XCount(skb), TIdle), skb, 6);
      stats := CountRx(stats, skb);
      log := log.(arrived := log.arrived + [skb]);
      if !skb.redirected || skb.iif == 0 {
        assert end == Return(At(ByXmit, XUnlock, TIdle), skb, 5);
        assert end == Return(View(), skb, 4);
        return;
      }
      assert end == Return(At(ByXmit, XCheck(skb), TIdle), skb, 5);
      if |rq| >= txQueueLen {
        stopped := true;
      }
      assert end == Return(At(ByXmit, XQueue(skb), TIdle), skb, 4);
      Enqueue(skb);
    }

    method Enqueue(skb: Skb)
      requires !lockedElsewhere
      modifies this
      ensures View() == Return(old(At(ByXmit, XQueue(skb), TIdle)), skb, 4)
    {
      ghost var end := Return(At(ByXmit, XQueue(skb), TIdle), skb, 4);
      rq := rq + [skb];
      log := log.(accepted := log.accepted + [skb]);
      assert end == Return(At(ByXmit, XPend, TIdle), skb, 3);
      Signal(skb);
    }

    method Signal(ghost skb: Skb)
      requires !lockedElsewhere
      modifies this
      ensures View() == Return(old(At(ByXmit, XPend, TIdle)), skb, 3)
    {
      ghost var end := Return(At(ByXmit, XPend, TIdle), skb, 3);
      if taskletPending {
        assert end == Return(At(ByXmit, XUnlock, TIdle), skb, 2);
        assert end == Return(View(), skb, 1);
      } else {
        taskletPending := true;
        assert end == Return(At(ByXmit, XSchedule, TIdle), skb, 2);
        scheduled := true;
        assert end == Return(At(ByXmit, XUnlock, TIdle), skb, 1);
      }
    }

    /** Runs when scheduled. `first` and `last` are what becomes of the lock, as far as
        others hold it, by the time of the two try-locks. */
    method IfbRiTasklet(first: bool, last: bool)
      requires scheduled
      modifies this
      ensures View() == Finish(TaskletStep(old(View())), first, last)
    {
      ghost var end := Finish(TaskletStep(View()), first, last);
      scheduled := false;
      assert end == Finish(At(View().lock, XIdle, TPeek), first, last);
      var locked := true;
      if tq == [] {
        locked := SpliceRq(first, last);
      }
      if !locked {
        Reschedule(first, last);
        return;
      }
      assert end == Finish(At(View().lock, XIdle, TDrain), first, last);
      var again := DrainTq(first, last);
      if again {
        Reschedule(first, last);
      } else {
        CheckRq(first, last);
      }
    }

    /** Takes over what ifb_xmit queued, if the lock can be had. */
    method SpliceRq(first: bool, ghost last: bool) returns (locked: bool)
      requires tq == []
      modifies this
      ensures Finish(At(View().lock, XIdle, if locked then TDrain else TRetry), first, last)
           == old(Finish(At(View().lock, XIdle, TTryFirst), first, last))
    {
      ghost var end := Finish(At(View().lock, XIdle, TTryFirst), first, last);
      lockedElsewhere := !first;
      if lockedElsewhere {
        assert end == Finish(At(ByOther, XIdle, TRetry), first, last);
        return false;
      }
      assert end == Finish(At(ByTasklet, XIdle, TSplice), first, last);
      tq, rq := tq + rq, [];
      return true;
    }

    /** The dequeuing loop; `again` is its jump to the rescheduling label. */
    method DrainTq(ghost first: bool, ghost last: bool) returns (again: bool)
      modifies this
      ensures lockedElsewhere == old(lockedElsewhere)
      ensures Finish(At(View().lock, XIdle, if again then TRetry else TTryLast), first, last)
           == old(Finish(At(View().lock, XIdle, TDrain), first, last))
    {
      ghost var lock := View().lock;
      ghost var end := Finish(At(lock, XIdle, TDrain), first, last);
      while tq != []
        invariant end == Finish(At(lock, XIdle, TDrain), first, last) && lock == View().lock
        invariant lockedElsewhere == old(lockedElsewhere)
        decreases |tq|
      {
        var skb := TakeOne(first, last);
        var dropped := DeliverOne(skb, first, last);
        if dropped {
          return tq != [];
        }
      }
      return false;
    }

    method TakeOne(ghost first: bool, ghost last: bool) returns (skb: Skb)
      requires tq != []
      modifies this
      ensures lockedElsewhere == old(lockedElsewhere) && tq == old(tq)[1..]
      ensures Finish(At(View().lock, XIdle, TDeliver(skb)), first, last)
           == old(Finish(At(View().lock, XIdle, TDrain), first, last))
    {
      ghost var before := At(View().lock, XIdle, TDrain);
      skb := tq[0];
      tq := tq[1..];
      log := log.(taken := log.taken + [skb]);
      stats := CountTx(stats, skb);
      assert At(View().lock, XIdle, TDeliver(skb)) == Take(before);
    }

    method DeliverOne(skb: Skb, ghost first: bool, ghost last: bool) returns (dropped: bool)
      modifies this
      ensures lockedElsewhere == old(lockedElsewhere) && tq == old(tq)
      ensures Finish(At(View().lock, XIdle, if !dropped then TDrain else if tq != [] then TRetry else TTryLast), first, last)
           == old(Finish(At(View().lock, XIdle, TDeliver(skb)), first, last))
    {
      ghost var before := At(View().lock, XIdle, TDeliver(skb));
      dropped := skb.iif !in devs;
      log := log.(found := log.found + [!dropped], seen := log.seen + [devs]);
      if dropped {
        stats := stats.(txDropped := stats.txDropped + 1);
      }
      assert Deliver(before, skb)
          == At(View().lock, XIdle, if !dropped then TDrain else if tq != [] then TRetry else TTryLast);
    }

    /** The last part: nothing more to do, or another run. */
    method CheckRq(ghost first: bool, last: bool)
      modifies this
      ensures View() == Finish(old(At(View().lock, XIdle, TTryLast)), first, last)
    {
      ghost var end := Finish(At(View().lock, XIdle, TTryLast), first, last);
      lockedElsewhere := !last;
      if lockedElsewhere {
        assert end == Finish(At(ByOther, XIdle, TRetry), first, last);
        Reschedule(first, last);
      } else {
        assert end == Finish(At(ByTasklet, XIdle, TCheck), first, last);
        ClearPending(first, last);
      }
    }

    /** Under the lock. */
    method ClearPending(ghost first: bool, ghost last: bool)
      requires !lockedElsewhere
      modifies this
      ensures View() == Finish(old(At(ByTasklet, XIdle, TCheck)), first, last)
    {
      ghost var end := Finish(At(ByTasklet, XIdle, TCheck), first, last);
      if rq == [] {
        taskletPending := false;
        assert end == Finish(At(ByTasklet, XIdle, TWake), first, last);
        if stopped {
          stopped := false;
        }
        assert end == Finish(View(), first, last);
      } else {
        assert end == Finish(At(Free, XIdle, TRetry), first, last);
        Reschedule(first, last);
      }
    }

    method Reschedule(ghost first: bool, ghost last: bool)
      modifies this
      ensures View() == Finish(old(At(View().lock, XIdle, TRetry)), first, last)
    {
      ghost var end := Finish(At(View().lock, XIdle, TRetry), first, last);
      taskletPending := true;
      assert end == Finish(At(View().lock, XIdle, TSchedule), first, last);
      scheduled := true;
      assert end == Finish(View(), first, last);
    }
  }
}
