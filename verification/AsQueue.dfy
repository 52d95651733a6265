/** as_data of block/as-iosched.c as an object: the steps of AsWakeup taken field by field
    and goto by goto, with what each promises to a caller who keeps the object valid. */
module AsQueue {
  import opened Wrappers
  import opened AsWakeup
  import opened AsForced

  /** One of the queued requests goes to the driver, or nothing moves. */
  ghost predicate SendsOneOrNone(s: As, s': As, sent: bool) {
    if sent then exists r :: Sends(s, s', r) else SendsNothing(s, s')
  }

  /** If requests stay behind, an uncompleted request or the timer will run the queue. */
  ghost predicate KeepsRunning(s: As, sent: bool) {
    Valid(s) && (sent || WillRunAgain(s, None))
  }

  lemma DispatchPromises(s: As, c: Choices)
    requires LaneOk(s.sync, true) && LaneOk(s.async, false)
    ensures SendsOneOrNone(s, Dispatch(s, c).s, Dispatch(s, c).rq.Some?)
    ensures Valid(s) && FindOk(s, c) ==> KeepsRunning(Dispatch(s, c).s, Dispatch(s, c).rq.Some?)
  {
    DispatchSends(s, c);
    if Valid(s) && FindOk(s, c) { DispatchValid(s, c); }
  }

  /** The request is the driver's and in no list, and nobody waits. */
  ghost predicate HandsOver(s: As, s': As, r: Rq) {
    Valid(s') && s'.status == Off && !s'.timer && Sends(s, s', r)
  }

  lemma MoveIs(s: As, s1: As, s': As, r: Rq, pick: Option<Rq>)
    requires r in LaneOf(s, r.sync).tree && s1 == AsWakeup.AnticStop(s).(status := Off)
    requires s' == s1.(sync := if r.sync then Without(s.sync, r, pick) else s.sync,
                       async := if r.sync then s.async else Without(s.async, r, pick),
                       ioContext := if r.sync then Some(r.ioc) else None, iocFinished := false,
                       nrDispatched := s.nrDispatched + 1, issued := s.issued + {r})
    ensures s' == AsWakeup.MoveToDispatch(s, r, pick)
  {
  }

  lemma MovePromises(s: As, r: Rq, pick: Option<Rq>)
    requires r in LaneOf(s, r.sync).tree
    ensures Valid(s) && Pickable(LaneOf(s, r.sync), {r}, pick) ==>
              HandsOver(s, AsWakeup.MoveToDispatch(s, r, pick), r)
  {
    if Valid(s) && Pickable(LaneOf(s, r.sync), {r}, pick) {
      MoveValid(s, r, pick);
      MoveSends(s, r, pick);
    }
  }

  /** The request is gone from the driver.  If it was the last of the old batch the queue
      will be run, and if it is the one that is waited for the timer is armed. */
  ghost predicate TakesBack(s: As, s': As, r: Rq) {
    && Valid(s') && s'.issued == s.issued - {r}
    && (s.issued == {r} && s.changedBatch ==> s'.work && !s'.changedBatch)
    && (s.status == WaitReq && s.ioContext == Some(r.ioc) ==> s'.status == WaitNext && s'.timer)
  }

  lemma CompletedPromises(s: As, r: Rq)
    ensures Valid(s) && r in s.issued ==> TakesBack(s, Completed(s, r), r)
  {
    if Valid(s) && r in s.issued { CompletedValid(s, r); }
  }

  /** as_find_next_rq answers with another queued request if there is one. */
  ghost predicate Finds(find: (Lane, Rq) -> Option<Rq>) {
    forall l: Lane, r: Rq {:trigger find(l, r)} :: r in l.tree ==> Pickable(l, {r}, find(l, r))
  }

  /** What forced dispatch makes of a direction: nothing if next_rq is not set, else it is
      emptied. */
  ghost predicate Forces(l: Lane, l': Lane) {
    if l.next.Some? then l'.tree == {} && l'.next.None? else l' == l
  }

  /** `n` requests have gone from one direction to the driver, and the other is untouched. */
  ghost predicate Hands(s: As, s': As, dir: bool, n: nat) {
    && Valid(s') && LaneOf(s', !dir) == LaneOf(s, !dir)
    && Everywhere(s') == Everywhere(s) && |s'.issued| == |s.issued| + n
  }

  lemma HandsOne(s: As, r: Rq, pick: Option<Rq>)
    requires Valid(s) && r in LaneOf(s, r.sync).tree && Pickable(LaneOf(s, r.sync), {r}, pick)
    ensures var s' := AsWakeup.MoveToDispatch(s, r, pick); Hands(s, s', r.sync, 1) && LaneNext(LaneOf(s', r.sync))
    ensures |LaneOf(AsWakeup.MoveToDispatch(s, r, pick), r.sync).tree| < |LaneOf(s, r.sync).tree|
  {
    MoveValid(s, r, pick);
    MoveKeeps(s, r, pick);
    assert r !in s.issued && |LaneOf(s, r.sync).tree - {r}| == |LaneOf(s, r.sync).tree| - 1;
  }

  /** A forced dispatch of `n` requests: a direction whose next_rq is set is emptied, one
      whose next_rq is not set keeps its requests, and so everything is emptied if and only
      if next_rq is set wherever there are requests. */
  ghost predicate Empties(s: As, s': As, n: nat) {
    && Valid(s') && s'.batchSync && !s'.changedBatch && !s'.newBatch
    && Everywhere(s') == Everywhere(s) && |s'.issued| == |s.issued| + n
    && Forces(s.sync, s'.sync) && Forces(s.async, s'.async)
    && (s'.sync.tree == {} && s'.async.tree == {} <==> NextSet(s))
  }

  /** Both directions are forced one after the other. */
  lemma ForcesBoth(s: As, s0: As, s1: As, s2: As, n: nat, m: nat)
    requires s0 == s.(batchSync := true, changedBatch := false, newBatch := false)
    requires Hands(s0, s1, true, n) && Forces(s0.sync, s1.sync) && Hands(s1, s2, false, m) && Forces(s1.async, s2.async)
    requires s2.batchSync && !s2.changedBatch && !s2.newBatch
    ensures Empties(s, s2, n + m)
  {
  }

  class AsData {
    var sync: Lane
    var async: Lane
    var anticStatus: Status
    var anticTimer: bool
    var anticWork: bool
    var ioContext: Option<nat>
    var iocFinished: bool
    var nrDispatched: int
    var changedBatch: bool
    var newBatch: bool
    var batchSync: bool
    ghost var issued: set<Rq>

    ghost function View(): As
      reads this
    {
      As(sync, async, anticStatus, anticTimer, anticWork, ioContext, iocFinished, nrDispatched,
         changedBatch, newBatch, batchSync, issued)
    }

    constructor ()
      ensures View() == Init() && Valid(View())
    {
      sync, async := EMPTY_LANE, EMPTY_LANE;
      anticStatus, anticTimer, anticWork := Off, false, false;
      ioContext, iocFinished, nrDispatched := None, false, 0;
      changedBatch, newBatch, batchSync, issued := false, false, true, {};
      new;
      InitValid();
    }

    method AnticWaitNext()
      requires anticStatus == Off || anticStatus == WaitReq
      modifies this`anticTimer, this`anticStatus
      ensures anticTimer && anticStatus == WaitNext
    {
      anticTimer := true;
      anticStatus := WaitNext;
    }

    /** as_antic_waitreq: afterwards a request of the awaited process is with the driver, or
        the timer runs. */
    method AnticWaitReq()
      requires anticStatus != Finished
      modifies this`anticTimer, this`anticStatus
      ensures View() == WaitReqStep(old(View()))
      ensures old(Valid(View()) && ioContext.Some?) ==> Valid(View()) && Waiting(View()) && WillRunAgain(View(), None)
    {
      if Valid(View()) && ioContext.Some? {
        WaitReqValid(View());
      }
      if anticStatus == Off {
        if ioContext.None? || iocFinished {
          AnticWaitNext();
        } else {
          anticStatus := WaitReq;
        }
      }
    }

    /** as_antic_stop: nobody waits any more, no timer is left behind, and if somebody
        waited the queue will be run. */
    method AnticStop()
      modifies this`anticTimer, this`anticStatus, this`anticWork
      ensures View() == AsWakeup.AnticStop(old(View()))
      ensures !Waiting(View()) && (old(Waiting(View())) ==> anticWork)
      ensures old(Valid(View())) ==> Valid(View()) && !anticTimer
    {
      if Valid(View()) {
        StopValid(View());
      }
      if anticStatus == WaitReq || anticStatus == WaitNext {
        if anticStatus == WaitNext {
          anticTimer := false;
        }
        anticStatus := Finished;
        anticWork := true;
      }
    }

    /** The timer goes off. */
    method AnticTimeout()
      requires Valid(View())
      modifies this`anticTimer, this`anticStatus, this`anticWork
      ensures View() == Timeout(old(View())) && Valid(View())
    {
      TimeoutValid(View());
      anticTimer := false;
      if anticStatus == WaitReq || anticStatus == WaitNext {
        anticStatus := Finished;
        anticWork := true;
      }
    }

    /** The anticipation is called off. */
    method StopWaiting()
      modifies this`anticTimer, this`anticStatus, this`anticWork
      ensures View() == AsWakeup.AnticStop(old(View())).(status := Off)
    {
      AnticStop();
      anticStatus := Off;
    }

    /** as_move_to_dispatch: the request is the driver's and in no list, no anticipation is
        left, and what is kept of the lists still agrees. */
    method MoveToDispatch(r: Rq, pick: Option<Rq>)
      requires r in (if r.sync then sync else async).tree
      modifies this`sync, this`async, this`anticStatus, this`anticTimer, this`anticWork, this`ioContext,
               this`iocFinished, this`nrDispatched, this`issued
      ensures View() == AsWakeup.MoveToDispatch(old(View()), r, pick)
      ensures old(Valid(View()) && Pickable(LaneOf(View(), r.sync), {r}, pick)) ==> HandsOver(old(View()), View(), r)
    {
      ghost var s := View();
      StopWaiting();
      ghost var s1 := View();
      Charge(r);
      RemoveQueued(r, pick);
      MoveIs(s, s1, View(), r, pick);
      MovePromises(s, r, pick);
    }

    /** The request is charged to its process and to the driver. */
    method Charge(r: Rq)
      modifies this`ioContext, this`iocFinished, this`nrDispatched, this`issued
      ensures ioContext == (if r.sync then Some(r.ioc) else None) && !iocFinished
      ensures nrDispatched == old(nrDispatched) + 1 && issued == old(issued) + {r}
    {
      ioContext := if r.sync then Some(r.ioc) else None;
      iocFinished := false;
      nrDispatched := nrDispatched + 1;
      issued := issued + {r};
    }

    /** as_remove_queued_request. */
    method RemoveQueued(r: Rq, pick: Option<Rq>)
      modifies this`sync, this`async
      ensures sync == if r.sync then Without(old(sync), r, pick) else old(sync)
      ensures async == if r.sync then old(async) else Without(old(async), r, pick)
    {
      if r.sync {
        sync := Without(sync, r, pick);
      } else {
        async := Without(async, r, pick);
      }
    }

    /** The batch bookkeeping of as_completed_request. */
    method AccountBatch(r: Rq)
      modifies this`anticWork, this`nrDispatched, this`changedBatch, this`newBatch, this`issued
      ensures var last := old(changedBatch) && old(nrDispatched) == 1;
              && anticWork == (old(anticWork) || last) && changedBatch == (old(changedBatch) && !last)
              && newBatch == ((old(newBatch) || (last && batchSync)) && batchSync != r.sync)
      ensures nrDispatched == old(nrDispatched) - 1 && issued == old(issued) - {r}
    {
      if changedBatch && nrDispatched == 1 {
        anticWork := true;
        changedBatch := false;
        if batchSync {
          newBatch := true;
        }
      }
      nrDispatched := nrDispatched - 1;
      issued := issued - {r};
      if newBatch && batchSync == r.sync {
        newBatch := false;
      }
    }

    /** as_completed_request.  Completing the last request of the old batch makes the queue
        run; completing the request that is waited for arms the timer. */
    method CompletedRequest(r: Rq)
      modifies this`anticStatus, this`anticTimer, this`anticWork, this`iocFinished, this`nrDispatched,
               this`changedBatch, this`newBatch, this`issued
      ensures View() == Completed(old(View()), r)
      ensures old(Valid(View())) && r in old(issued) ==> TakesBack(old(View()), View(), r)
    {
      CompletedPromises(View(), r);
      AccountBatch(r);
      if ioContext == Some(r.ioc) {
        iocFinished := true;
        if anticStatus == WaitReq {
          AnticWaitNext();
        }
      }
    }

    /** Everything from label fifo_expired on. */
    method Finish(rq: Rq, c: Choices) returns (sent: bool)
      requires rq in (if rq.sync then sync else async).tree
      modifies this
      ensures sent == FinishDispatch(old(View()), rq, c).rq.Some?
      ensures View() == FinishDispatch(old(View()), rq, c).s
    {
      if changedBatch {
        if nrDispatched != 0 {
          return false;
        }
        if batchSync {
          newBatch := true;
        }
        changedBatch := false;
      }
      MoveToDispatch(rq, c.find(rq));
      sent := true;
    }

    /** From label dispatch_request on. */
    method ServiceExpired(rq: Rq, c: Choices) returns (sent: bool)
      requires LaneOk(sync, true) && LaneOk(async, false) && rq in (if rq.sync then sync else async).tree
      modifies this
      ensures sent == DispatchRequest(old(View()), rq, c).rq.Some?
      ensures View() == DispatchRequest(old(View()), rq, c).s
    {
      var fifo := if batchSync then sync.fifo else async.fifo;
      if c.expired && fifo != [] {
        assert fifo[0] in fifo;
        sent := Finish(fifo[0], c);
      } else {
        sent := Finish(rq, c);
      }
    }

    method SelectBatch(c: Choices) returns (sent: bool)
      requires LaneOk(sync, true) && LaneOk(async, false) && (sync.fifo != [] || async.fifo != [])
      modifies this
      ensures sent == NewBatch(old(View()), c).rq.Some?
      ensures View() == NewBatch(old(View()), c).s
    {
      if sync.fifo != [] && !(async.fifo != [] && batchSync) {
        if !batchSync {
          changedBatch := true;
        }
        batchSync := true;
        assert sync.fifo[0] in sync.fifo;
        sent := ServiceExpired(sync.fifo[0], c);
      } else {
        if batchSync {
          changedBatch := true;
          newBatch := false;
        }
        batchSync := false;
        assert async.fifo[0] in async.fifo;
        sent := ServiceExpired(async.fifo[0], c);
      }
    }

    /** The part of as_dispatch_request that stays with the current batch, unless it has
        nothing to send and nothing to wait for. */
    method KeepBatch(c: Choices) returns (decided: bool, sent: bool)
      requires LaneOk(sync, true) && LaneOk(async, false) && Queued(View()) && !Waiting(View()) && !changedBatch
      requires !(sync.fifo != [] && async.fifo != [] && c.batchExpired && !newBatch)
      modifies this
      ensures decided ==> sent == Dispatch(old(View()), c).rq.Some? && View() == Dispatch(old(View()), c).s
      ensures !decided ==> View() == old(View()) && Dispatch(View(), c) == NewBatch(View(), c)
    {
      var rq := if batchSync then sync.next else async.next;
      if batchSync && c.anticExpire {
        if c.syncExpired && sync.fifo != [] {
          assert sync.fifo[0] in sync.fifo;
          sent := Finish(sync.fifo[0], c);
          return true, sent;
        }
        var breaks := (rq.Some? && ioContext == Some(rq.value.ioc)) || c.breaks;
        if ioContext.Some? && anticStatus != Finished && !breaks {
          AnticWaitReq();
          return true, false;
        }
      }
      if rq.Some? {
        sent := ServiceExpired(rq.value, c);
        return true, sent;
      }
      return false, false;
    }

    /** as_dispatch_request, unforced: it sends one of the queued requests or none, and if
        requests stay behind an uncompleted request or the timer will run the queue. */
    method DispatchRequests(c: Choices) returns (sent: bool)
      requires LaneOk(sync, true) && LaneOk(async, false)
      modifies this
      ensures sent == Dispatch(old(View()), c).rq.Some?
      ensures View() == Dispatch(old(View()), c).s
      ensures SendsOneOrNone(old(View()), View(), sent)
      ensures old(Valid(View()) && FindOk(View(), c)) ==> KeepsRunning(View(), sent)
    {
      DispatchPromises(View(), c);
      var syncs, asyncs := sync.fifo != [], async.fifo != [];
      if !(syncs || asyncs) || anticStatus == WaitReq || anticStatus == WaitNext || changedBatch {
        return false;
      }
      var decided := false;
      if !(syncs && asyncs && c.batchExpired && !newBatch) {
        decided, sent := KeepBatch(c);
      }
      if !decided {
        sent := SelectBatch(c);
      }
    }

    /** next_rq of a direction goes to the driver. */
    method SendNext(dir: bool, find: (Lane, Rq) -> Option<Rq>)
      requires Valid(View()) && Finds(find) && (if dir then sync else async).next.Some?
      modifies this`sync, this`async, this`anticStatus, this`anticTimer, this`anticWork, this`ioContext,
               this`iocFinished, this`nrDispatched, this`issued
      ensures Hands(old(View()), View(), dir, 1) && LaneNext(LaneOf(View(), dir))
      ensures |LaneOf(View(), dir).tree| < |old(LaneOf(View(), dir)).tree|
    {
      var l := if dir then sync else async;
      var r := l.next.value;
      assert r.sync == dir;
      HandsOne(View(), r, find(l, r));
      MoveToDispatch(r, find(l, r));
    }

    /** One of the two loops of a forced as_dispatch_request. */
    method DrainLane(dir: bool, find: (Lane, Rq) -> Option<Rq>) returns (dispatched: nat)
      requires Valid(View()) && Finds(find)
      modifies this`sync, this`async, this`anticStatus, this`anticTimer, this`anticWork, this`ioContext,
               this`iocFinished, this`nrDispatched, this`issued
      ensures Hands(old(View()), View(), dir, dispatched) && Forces(old(LaneOf(View(), dir)), LaneOf(View(), dir))
    {
      ghost var l := LaneOf(View(), dir);
      dispatched := 0;
      while (if dir then sync else async).next.Some?
        invariant Hands(old(View()), View(), dir, dispatched)
        invariant if dispatched == 0 then LaneOf(View(), dir) == l else l.next.Some? && LaneNext(LaneOf(View(), dir))
        decreases |LaneOf(View(), dir).tree|
      {
        SendNext(dir, find);
        dispatched := dispatched + 1;
      }
    }

    method ResetBatch()
      modifies this`batchSync, this`changedBatch, this`newBatch
      ensures View() == old(View()).(batchSync := true, changedBatch := false, newBatch := false)
      ensures old(Valid(View())) ==> Valid(View())
    {
      if Valid(View()) {
        StepValid(View(), ForceReset);
      }
      batchSync, changedBatch, newBatch := true, false, false;
    }

    /** as_dispatch_request with force. */
    method ForceDispatch(find: (Lane, Rq) -> Option<Rq>) returns (dispatched: nat)
      requires Valid(View()) && Finds(find)
      modifies this
      ensures Empties(old(View()), View(), dispatched)
    {
      ghost var s := View();
      ResetBatch();
      ghost var s0 := View();
      var n := DrainLane(true, find);
      ghost var s1 := View();
      var m := DrainLane(false, find);
      ForcesBoth(s, s0, s1, View(), n, m);
      dispatched := n + m;
    }
  }
}
