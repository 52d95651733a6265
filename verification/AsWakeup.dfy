/** The anticipation machine of block/as-iosched.c.  Whatever the clocks and the
    I/O statistics say (they come in as choices), a dispatch that holds back queued
    requests leaves something behind that will make the queue run again. */
module AsWakeup {
  import opened Wrappers

  /** A request: identity, rq_is_sync and the io context it was charged to
      (allocation of io contexts succeeds). */
  datatype Rq = Rq(id: nat, sync: bool, ioc: nat)

  datatype Status = Off | WaitReq | WaitNext | Finished

  /** One direction: fifo_list, the members of sort_list, and next_rq. */
  datatype Lane = Lane(fifo: seq<Rq>, tree: set<Rq>, next: Option<Rq>)

  /** as_data; `timer` and `work` say that antic_timer is armed and antic_work
      scheduled; `issued` are the dispatched requests that have not completed. */
  datatype As = As(sync: Lane, async: Lane, status: Status, timer: bool, work: bool,
                   ioContext: Option<nat>, iocFinished: bool, nrDispatched: int,
                   changedBatch: bool, newBatch: bool, batchSync: bool, issued: set<Rq>)

  const EMPTY_LANE := Lane([], {}, None)

  function Init(): As {
    As(EMPTY_LANE, EMPTY_LANE, Off, false, false, None, false, 0, false, false, true, {})
  }

  function LaneOf(s: As, sync: bool): Lane { if sync then s.sync else s.async }

  function SetLane(s: As, sync: bool, l: Lane): As { if sync then s.(sync := l) else s.(async := l) }

  predicate Waiting(s: As) { s.status == WaitReq || s.status == WaitNext }

  predicate Queued(s: As) { s.sync.fifo != [] || s.async.fifo != [] }

  // --------------------------------------------------------- the steps

  /** as_antic_waitnext; its BUG_ON is the precondition. */
  function WaitNextStep(s: As): As
    requires s.status == Off || s.status == WaitReq
  {
    s.(timer := true, status := WaitNext)
  }

  /** as_antic_waitreq; its BUG_ON is the precondition. */
  function WaitReqStep(s: As): As
    requires s.status != Finished
  {
    if s.status != Off then s
    else if s.ioContext.None? || s.iocFinished then WaitNextStep(s)
    else s.(status := WaitReq)
  }

  /** as_antic_stop. */
  function AnticStop(s: As): As {
    if Waiting(s) then s.(timer := if s.status == WaitNext then false else s.timer, status := Finished, work := true)
    else s
  }

  /** as_antic_timeout, when the timer goes off; it follows io_context. */
  function Timeout(s: As): As
    requires Waiting(s) ==> s.ioContext.Some?
  {
    if Waiting(s) then s.(timer := false, status := Finished, work := true) else s.(timer := false)
  }

  function RemoveFirst(fifo: seq<Rq>, r: Rq): seq<Rq> {
    if fifo == [] then [] else if fifo[0] == r then fifo[1..] else [fifo[0]] + RemoveFirst(fifo[1..], r)
  }

  /** as_remove_queued_request, with the new next_rq. */
  function Without(l: Lane, r: Rq, pick: Option<Rq>): Lane {
    Lane(RemoveFirst(l.fifo, r), l.tree - {r}, pick)
  }

  /** as_move_to_dispatch; `pick` is what as_find_next_rq returns.  BUG_ON: the
      request is in its tree. */
  function MoveToDispatch(s: As, r: Rq, pick: Option<Rq>): As
    requires r in LaneOf(s, r.sync).tree
  {
    var s1 := AnticStop(s);
    As(if r.sync then Without(s.sync, r, pick) else s.sync, if r.sync then s.async else Without(s.async, r, pick),
       Off, s1.timer, s1.work, if r.sync then Some(r.ioc) else None, false,
       s.nrDispatched + 1, s.changedBatch, s.newBatch, s.batchSync, s.issued + {r})
  }

  /** as_completed_request. */
  function Completed(s: As, r: Rq): As {
    var last := s.changedBatch && s.nrDispatched == 1;
    var newBatch := s.newBatch || (last && s.batchSync);
    var s1 := s.(changedBatch := s.changedBatch && !last, work := s.work || last,
                 newBatch := newBatch && s.batchSync != r.sync,
                 nrDispatched := s.nrDispatched - 1, issued := s.issued - {r});
    if s.ioContext == Some(r.ioc) then
      var s2 := s1.(iocFinished := true);
      if s2.status == WaitReq then WaitNextStep(s2) else s2
    else s1
  }

  /** The answers of the clocks and of as_can_break_anticipation, and what
      as_find_next_rq finds next to a request. */
  datatype Choices = Choices(anticExpire: bool, batchExpired: bool, syncExpired: bool, expired: bool,
                             breaks: bool, find: Rq -> Option<Rq>)

  /** as_can_break_anticipation: a request of the awaited process always does. */
  predicate CanBreak(s: As, rq: Option<Rq>, c: Choices)
    requires s.ioContext.Some?
  {
    (rq.Some? && s.ioContext == Some(rq.value.ioc)) || c.breaks
  }

  /** as_can_anticipate. */
  predicate CanAnticipate(s: As, rq: Option<Rq>, c: Choices) {
    s.ioContext.Some? && s.status != Finished && !CanBreak(s, rq, c)
  }

  datatype Outcome = Outcome(s: As, rq: Option<Rq>)

  /** The code from label dispatch_request on. */
  function DispatchRequest(s: As, rq: Rq, c: Choices): Outcome
    requires LaneOk(s.sync, true) && LaneOk(s.async, false) && rq in LaneOf(s, rq.sync).tree
  {
    var l := LaneOf(s, s.batchSync);
    FinishDispatch(s, if c.expired && l.fifo != [] then l.fifo[0] else rq, c)
  }

  /** The code from behind label fifo_expired on: a changed batch waits for the old
      one to finish. */
  function FinishDispatch(s: As, rq: Rq, c: Choices): Outcome
    requires rq in LaneOf(s, rq.sync).tree
  {
    if s.changedBatch && s.nrDispatched != 0 then Outcome(s, None)
    else
      var s1 := if s.changedBatch then s.(changedBatch := false, newBatch := s.newBatch || s.batchSync) else s;
      Outcome(MoveToDispatch(s1, rq, c.find(rq)), Some(rq))
  }

  /** Choosing a new batch; the BUG at its end is not reached, and the tree of the
      chosen direction is not empty. */
  function NewBatch(s: As, c: Choices): Outcome
    requires Queued(s) && LaneOk(s.sync, true) && LaneOk(s.async, false)
  {
    if s.sync.fifo != [] && !(s.async.fifo != [] && s.batchSync) then
      DispatchRequest(s.(changedBatch := s.changedBatch || !s.batchSync, batchSync := true), s.sync.fifo[0], c)
    else
      DispatchRequest(s.(changedBatch := s.changedBatch || s.batchSync, newBatch := s.newBatch && !s.batchSync,
                         batchSync := false), s.async.fifo[0], c)
  }

  /** as_dispatch_request without force; the result holds the dispatched request. */
  function Dispatch(s: As, c: Choices): Outcome
    requires LaneOk(s.sync, true) && LaneOk(s.async, false)
  {
    if !Queued(s) || Waiting(s) || s.changedBatch then Outcome(s, None)
    else
      var both := s.sync.fifo != [] && s.async.fifo != [];
      if both && c.batchExpired && !s.newBatch then NewBatch(s, c)
      else
        var rq := LaneOf(s, s.batchSync).next;
        if s.batchSync && c.anticExpire && c.syncExpired && s.sync.fifo != [] then FinishDispatch(s, s.sync.fifo[0], c)
        else if s.batchSync && c.anticExpire && CanAnticipate(s, rq, c) then Outcome(WaitReqStep(s), None)
        else if rq.Some? then DispatchRequest(s, rq.value, c)
        else NewBatch(s, c)
  }

  /** as_add_rq_rb and the fifo; `better` is the answer of as_choose_req. */
  function Enqueued(s: As, r: Rq, better: bool): As {
    var l := LaneOf(s, r.sync);
    SetLane(s, r.sync, Lane(l.fifo + [r], l.tree + {r}, if l.next.None? || better then Some(r) else l.next))
  }

  /** as_add_request: an alias is dispatched first; then as_update_rq. */
  function Add(s: As, r: Rq, alias: Option<Rq>, better: bool, c: Choices): As
    requires alias.Some? ==> alias.value.sync == r.sync && alias.value in LaneOf(s, r.sync).tree
    requires Waiting(s) ==> s.ioContext.Some?
  {
    var s1 := if alias.Some? then AnticStop(MoveToDispatch(s, alias.value, c.find(alias.value))) else s;
    var s2 := Enqueued(s1, r, better);
    if Waiting(s2) && CanBreak(s2, Some(r), c) then AnticStop(s2) else s2
  }

  /** as_merged_request for a front merge: the request is taken out of the tree and
      put back; an alias at its new position is dispatched. */
  function FrontMerged(s: As, r: Rq, alias: Option<Rq>, pick: Option<Rq>): As
    requires alias.Some? ==> alias.value.sync == r.sync && alias.value in LaneOf(s, r.sync).tree
  {
    var s1 := if alias.Some? then AnticStop(MoveToDispatch(s, alias.value, pick)) else s;
    var l := LaneOf(s1, r.sync);
    SetLane(s1, r.sync, l.(tree := l.tree - {r} + {r}))
  }

  /** as_merged_requests: `gone` is absorbed by `r`, which may take its place in the
      fifo. */
  function MergedInto(s: As, r: Rq, gone: Rq, fifo: seq<Rq>, pick: Option<Rq>): As {
    var l := LaneOf(s, r.sync);
    SetLane(s, r.sync, Lane(fifo, l.tree - {gone}, if l.next == Some(gone) then pick else l.next))
  }

  // ------------------------------------------------------------- the invariant

  ghost predicate LaneOk(l: Lane, sync: bool) {
    && (forall r :: r in l.fifo <==> r in l.tree)
    && (forall i, j :: 0 <= i < j < |l.fifo| ==> l.fifo[i] != l.fifo[j])
    && (l.next.Some? ==> l.next.value in l.tree)
    && (forall r :: r in l.tree ==> r.sync == sync)
  }

  ghost predicate Awaited(s: As, ioc: nat) { exists r :: r in s.issued && r.ioc == ioc }

  ghost predicate Machine(s: As) {
    && (Waiting(s) ==> s.ioContext.Some?)
    && (s.timer <==> s.status == WaitNext)
    && (s.status == WaitReq ==> !s.iocFinished)
    && (s.ioContext.Some? && !s.iocFinished ==> Awaited(s, s.ioContext.value))
    && (s.changedBatch ==> s.nrDispatched > 0 && !s.newBatch)
    && (s.newBatch ==> s.batchSync)
    && s.nrDispatched == |s.issued|
  }

  ghost predicate Valid(s: As) {
    && LaneOk(s.sync, true) && LaneOk(s.async, false) && Machine(s)
    && s.sync.tree !! s.issued && s.async.tree !! s.issued
  }

  /** What as_find_next_rq may return once `r` is gone: None only if nothing else is
      in the tree. */
  predicate Pickable(l: Lane, gone: set<Rq>, pick: Option<Rq>) {
    (pick.Some? ==> pick.value in l.tree - gone) && (pick.None? ==> l.tree - gone == {})
  }

  // -------------------------------------------------------- each step keeps it

  lemma RemoveFirstMembers(fifo: seq<Rq>, r: Rq)
    requires forall i, j :: 0 <= i < j < |fifo| ==> fifo[i] != fifo[j]
    ensures var t := RemoveFirst(fifo, r);
            && (forall x :: x in t <==> x in fifo && x != r)
            && (forall i, j :: 0 <= i < j < |t| ==> t[i] != t[j])
  {
    if fifo != [] {
      RemoveFirstMembers(fifo[1..], r);
      assert forall x :: x in fifo <==> x == fifo[0] || x in fifo[1..];
      var t := RemoveFirst(fifo[1..], r);
      if fifo[0] != r {
        assert forall i :: 0 <= i < |t| ==> t[i] in t;
        assert forall x :: x in [fifo[0]] + t <==> x == fifo[0] || x in t;
      }
    }
  }

  lemma DispatchLane(l: Lane, sync: bool, r: Rq, pick: Option<Rq>)
    requires LaneOk(l, sync) && r in l.tree && Pickable(l, {r}, pick)
    ensures LaneOk(Without(l, r, pick), sync)
  {
    RemoveFirstMembers(l.fifo, r);
  }

  lemma StopValid(s: As)
    requires Valid(s)
    ensures Valid(AnticStop(s)) && !Waiting(AnticStop(s))
  {
    assert s.ioContext.Some? && Awaited(s, s.ioContext.value) ==> Awaited(AnticStop(s), s.ioContext.value);
  }

  /** Dispatching keeps the machine, provided no batch change is pending on an empty
      driver. */
  lemma MoveValid(s: As, r: Rq, pick: Option<Rq>)
    requires Valid(s) && r in LaneOf(s, r.sync).tree && Pickable(LaneOf(s, r.sync), {r}, pick)
    ensures Valid(MoveToDispatch(s, r, pick)) && MoveToDispatch(s, r, pick).status == Off
  {
    var s' := MoveToDispatch(s, r, pick);
    DispatchLane(LaneOf(s, r.sync), r.sync, r, pick);
    assert r in s'.issued && r !in s.issued;
    assert s'.ioContext.Some? ==> Awaited(s', s'.ioContext.value);
  }

  lemma CompletedValid(s: As, r: Rq)
    requires Valid(s) && r in s.issued
    ensures Valid(Completed(s, r))
  {
    var s' := Completed(s, r);
    assert s'.issued == s.issued - {r};
    if s.ioContext.Some? && !s.iocFinished && s.ioContext != Some(r.ioc) {
      var x :| x in s.issued && x.ioc == s.ioContext.value;
      assert x in s'.issued;
      assert Awaited(s', s'.ioContext.value);
    }
  }

  lemma TimeoutValid(s: As)
    requires Valid(s)
    ensures Valid(Timeout(s))
  {
    assert s.ioContext.Some? && Awaited(s, s.ioContext.value) ==> Awaited(Timeout(s), s.ioContext.value);
  }

  /** The no-lost-wake-up promise for one call. */
  ghost predicate WillRunAgain(s: As, rq: Option<Rq>) {
    rq.None? && Queued(s) ==> s.issued != {} || (s.status == WaitNext && s.timer)
  }

  /** as_find_next_rq answers with another queued request if there is one. */
  ghost predicate FindOk(s: As, c: Choices) {
    && (forall r :: r in s.sync.tree ==> Pickable(s.sync, {r}, c.find(r)))
    && (forall r :: r in s.async.tree ==> Pickable(s.async, {r}, c.find(r)))
  }

  /** A state whose batch change is being decided. */
  ghost predicate Choosing(s: As) {
    Valid(s.(changedBatch := false)) && !Waiting(s) && (s.changedBatch ==> !s.newBatch)
  }

  lemma FinishValid(s: As, rq: Rq, c: Choices)
    requires Choosing(s) && rq in LaneOf(s, rq.sync).tree && FindOk(s, c)
    ensures var o := FinishDispatch(s, rq, c); Valid(o.s) && WillRunAgain(o.s, o.rq)
  {
    assert s.ioContext.Some? && !s.iocFinished ==> Awaited(s.(changedBatch := false), s.ioContext.value);
    if s.changedBatch && s.nrDispatched != 0 {
      assert s.ioContext.Some? && !s.iocFinished ==> Awaited(s, s.ioContext.value);
    } else {
      var s1 := if s.changedBatch then s.(changedBatch := false, newBatch := s.newBatch || s.batchSync) else s;
      assert s.ioContext.Some? && !s.iocFinished ==> Awaited(s1, s.ioContext.value);
      MoveValid(s1, rq, c.find(rq));
    }
  }

  lemma RequestValid(s: As, rq: Rq, c: Choices)
    requires Choosing(s) && rq in LaneOf(s, rq.sync).tree && FindOk(s, c)
    ensures var o := DispatchRequest(s, rq, c); Valid(o.s) && WillRunAgain(o.s, o.rq)
  {
    var l := LaneOf(s, s.batchSync);
    assert l.fifo != [] ==> l.fifo[0] in l.fifo;
    FinishValid(s, if c.expired && l.fifo != [] then l.fifo[0] else rq, c);
  }

  lemma ChoosingAnother(s: As, s': As)
    requires Valid(s) && !Waiting(s) && !s.changedBatch
    requires s' == s.(changedBatch := s'.changedBatch, newBatch := s'.newBatch, batchSync := s'.batchSync)
    requires (s'.changedBatch ==> !s'.newBatch) && (s'.newBatch ==> s'.batchSync)
    ensures Choosing(s')
  {
    assert s.ioContext.Some? && !s.iocFinished ==> Awaited(s'.(changedBatch := false), s.ioContext.value);
  }

  lemma NewBatchValid(s: As, c: Choices)
    requires Valid(s) && !Waiting(s) && !s.changedBatch && Queued(s) && FindOk(s, c)
    ensures var o := NewBatch(s, c); Valid(o.s) && WillRunAgain(o.s, o.rq)
  {
    if s.sync.fifo != [] && !(s.async.fifo != [] && s.batchSync) {
      var s' := s.(changedBatch := s.changedBatch || !s.batchSync, batchSync := true);
      ChoosingAnother(s, s');
      assert s.sync.fifo[0] in s.sync.fifo;
      RequestValid(s', s.sync.fifo[0], c);
    } else {
      var s' := s.(changedBatch := s.changedBatch || s.batchSync, newBatch := s.newBatch && !s.batchSync,
                   batchSync := false);
      ChoosingAnother(s, s');
      assert s.async.fifo[0] in s.async.fifo;
      RequestValid(s', s.async.fifo[0], c);
    }
  }

  /** While it waits, the awaited request is with the driver or the timer runs. */
  lemma WaitReqValid(s: As)
    requires Valid(s) && s.status != Finished && s.ioContext.Some?
    ensures Valid(WaitReqStep(s)) && WillRunAgain(WaitReqStep(s), None)
  {
    var s' := WaitReqStep(s);
    if !s.iocFinished {
      var x :| x in s.issued && x.ioc == s.ioContext.value;
      assert Awaited(s', s.ioContext.value);
    }
  }

  /** as_dispatch_request keeps the machine, and if it holds queued requests back
      something will run the queue again. */
  lemma DispatchValid(s: As, c: Choices)
    requires Valid(s) && FindOk(s, c)
    ensures var o := Dispatch(s, c); Valid(o.s) && WillRunAgain(o.s, o.rq)
  {
    if Waiting(s) || s.changedBatch {
      if s.status == WaitReq { var x :| x in s.issued && x.ioc == s.ioContext.value; }
    } else if Queued(s) {
      var both := s.sync.fifo != [] && s.async.fifo != [];
      var rq := LaneOf(s, s.batchSync).next;
      if both && c.batchExpired && !s.newBatch {
        NewBatchValid(s, c);
      } else if s.batchSync && c.anticExpire && c.syncExpired && s.sync.fifo != [] {
        ChoosingAnother(s, s);
        assert s.sync.fifo[0] in s.sync.fifo;
        FinishValid(s, s.sync.fifo[0], c);
      } else if s.batchSync && c.anticExpire && CanAnticipate(s, rq, c) {
        WaitReqValid(s);
      } else if rq.Some? {
        ChoosingAnother(s, s);
        RequestValid(s, rq.value, c);
      } else {
        NewBatchValid(s, c);
      }
    }
  }

  /** The request is one of those that were queued; it goes to the driver and nothing else
      does. */
  ghost predicate Sends(s: As, s': As, r: Rq) {
    && r in s.sync.tree + s.async.tree && s'.issued == s.issued + {r}
    && s'.sync.tree == s.sync.tree - {r} && s'.async.tree == s.async.tree - {r}
  }

  /** Nothing moves. */
  ghost predicate SendsNothing(s: As, s': As) {
    s'.issued == s.issued && s'.sync.tree == s.sync.tree && s'.async.tree == s.async.tree
  }

  lemma MoveSends(s: As, r: Rq, pick: Option<Rq>)
    requires LaneOk(s.sync, true) && LaneOk(s.async, false) && r in LaneOf(s, r.sync).tree
    ensures Sends(s, MoveToDispatch(s, r, pick), r)
  {
    assert r.sync ==> r !in s.async.tree;
    assert !r.sync ==> r !in s.sync.tree;
  }

  lemma FinishSends(s: As, rq: Rq, c: Choices)
    requires LaneOk(s.sync, true) && LaneOk(s.async, false) && rq in LaneOf(s, rq.sync).tree
    ensures var o := FinishDispatch(s, rq, c); if o.rq.Some? then Sends(s, o.s, o.rq.value) else SendsNothing(s, o.s)
  {
    var s1 := if s.changedBatch then s.(changedBatch := false, newBatch := s.newBatch || s.batchSync) else s;
    MoveSends(s1, rq, c.find(rq));
  }

  lemma RequestSends(s: As, rq: Rq, c: Choices)
    requires LaneOk(s.sync, true) && LaneOk(s.async, false) && rq in LaneOf(s, rq.sync).tree
    ensures var o := DispatchRequest(s, rq, c); if o.rq.Some? then Sends(s, o.s, o.rq.value) else SendsNothing(s, o.s)
  {
    var l := LaneOf(s, s.batchSync);
    assert l.fifo != [] ==> l.fifo[0] in l.fifo;
    FinishSends(s, if c.expired && l.fifo != [] then l.fifo[0] else rq, c);
  }

  lemma NewBatchSends(s: As, c: Choices)
    requires LaneOk(s.sync, true) && LaneOk(s.async, false) && Queued(s)
    ensures var o := NewBatch(s, c); if o.rq.Some? then Sends(s, o.s, o.rq.value) else SendsNothing(s, o.s)
  {
    if s.sync.fifo != [] && !(s.async.fifo != [] && s.batchSync) {
      assert s.sync.fifo[0] in s.sync.fifo;
      RequestSends(s.(changedBatch := s.changedBatch || !s.batchSync, batchSync := true), s.sync.fifo[0], c);
    } else {
      assert s.async.fifo[0] in s.async.fifo;
      RequestSends(s.(changedBatch := s.changedBatch || s.batchSync, newBatch := s.newBatch && !s.batchSync,
                      batchSync := false), s.async.fifo[0], c);
    }
  }

  /** What a dispatch call sends was queued, and it is the only request that moves. */
  lemma DispatchSends(s: As, c: Choices)
    requires LaneOk(s.sync, true) && LaneOk(s.async, false)
    ensures var o := Dispatch(s, c); if o.rq.Some? then Sends(s, o.s, o.rq.value) else SendsNothing(s, o.s)
  {
    if Queued(s) && !Waiting(s) && !s.changedBatch {
      var rq := LaneOf(s, s.batchSync).next;
      if s.sync.fifo != [] && s.async.fifo != [] && c.batchExpired && !s.newBatch {
        NewBatchSends(s, c);
      } else if s.batchSync && c.anticExpire && c.syncExpired && s.sync.fifo != [] {
        assert s.sync.fifo[0] in s.sync.fifo;
        FinishSends(s, s.sync.fifo[0], c);
      } else if s.batchSync && c.anticExpire && CanAnticipate(s, rq, c) {
        assert SendsNothing(s, WaitReqStep(s));
      } else if rq.Some? {
        RequestSends(s, rq.value, c);
      } else {
        NewBatchSends(s, c);
      }
    }
  }

  lemma AddLane(l: Lane, sync: bool, r: Rq, next: Option<Rq>)
    requires LaneOk(l, sync) && r.sync == sync && r !in l.tree && (next == Some(r) || (next == l.next && next.Some?))
    ensures LaneOk(Lane(l.fifo + [r], l.tree + {r}, next), sync)
  {
    assert forall i :: 0 <= i < |l.fifo| ==> l.fifo[i] in l.fifo;
  }

  /** A request that is nowhere in the scheduler yet. */
  predicate Fresh(s: As, r: Rq) { r !in s.sync.tree && r !in s.async.tree && r !in s.issued }

  lemma EnqueueValid(s: As, r: Rq, better: bool)
    requires Valid(s) && Fresh(s, r)
    ensures Valid(Enqueued(s, r, better))
  {
    var l := LaneOf(s, r.sync);
    var next := if l.next.None? || better then Some(r) else l.next;
    AddLane(l, r.sync, r, next);
    var s' := Enqueued(s, r, better);
    assert s.ioContext.Some? && Awaited(s, s.ioContext.value) ==> Awaited(s', s.ioContext.value);
  }

  lemma AddValid(s: As, r: Rq, alias: Option<Rq>, better: bool, c: Choices)
    requires Valid(s) && Fresh(s, r) && FindOk(s, c)
    requires alias.Some? ==> alias.value.sync == r.sync && alias.value in LaneOf(s, r.sync).tree
    ensures Valid(Add(s, r, alias, better, c))
  {
    var s1 := s;
    if alias.Some? {
      MoveValid(s, alias.value, c.find(alias.value));
      StopValid(MoveToDispatch(s, alias.value, c.find(alias.value)));
      s1 := AnticStop(MoveToDispatch(s, alias.value, c.find(alias.value)));
    }
    EnqueueValid(s1, r, better);
    StopValid(Enqueued(s1, r, better));
  }

  /** Taking a queued request out of the tree and putting it back changes nothing. */
  lemma PutBack(s: As, r: Rq)
    requires r in LaneOf(s, r.sync).tree
    ensures var l := LaneOf(s, r.sync); SetLane(s, r.sync, l.(tree := l.tree - {r} + {r})) == s
  {
    var l := LaneOf(s, r.sync);
    assert l.tree - {r} + {r} == l.tree;
  }

  lemma OthersStayQueued(s: As, r: Rq, alias: Rq, pick: Option<Rq>)
    requires r in LaneOf(s, r.sync).tree && alias.sync == r.sync && alias in LaneOf(s, r.sync).tree && alias != r
    ensures r in LaneOf(AnticStop(MoveToDispatch(s, alias, pick)), r.sync).tree
  {
  }

  lemma FrontMergedValid(s: As, r: Rq, alias: Option<Rq>, pick: Option<Rq>)
    requires Valid(s) && r in LaneOf(s, r.sync).tree
    requires alias.Some? ==> alias.value.sync == r.sync && alias.value in LaneOf(s, r.sync).tree && alias.value != r
    requires Pickable(LaneOf(s, r.sync), if alias.Some? then {alias.value, r} else {r}, pick)
    ensures Valid(FrontMerged(s, r, alias, pick))
  {
    if alias.Some? {
      FrontAlias(s, r, alias.value, pick);
      StopValid(MoveToDispatch(s, alias.value, pick));
      OthersStayQueued(s, r, alias.value, pick);
      PutBack(AnticStop(MoveToDispatch(s, alias.value, pick)), r);
    } else {
      PutBack(s, r);
    }
  }

  /** Here next_rq may end up empty while the merged request is queued. */
  lemma FrontAlias(s: As, r: Rq, alias: Rq, pick: Option<Rq>)
    requires Valid(s) && r in LaneOf(s, r.sync).tree && alias.sync == r.sync && alias in LaneOf(s, r.sync).tree
    requires Pickable(LaneOf(s, r.sync), {alias, r}, pick)
    ensures Valid(MoveToDispatch(s, alias, pick))
  {
    var l := LaneOf(s, alias.sync);
    RemoveFirstMembers(l.fifo, alias);
    var s' := MoveToDispatch(s, alias, pick);
    assert alias in s'.issued && alias !in s.issued;
    assert s'.ioContext.Some? ==> Awaited(s', s'.ioContext.value);
  }

  /** The fifo after a request merge: the absorbed request is gone. */
  ghost predicate MergedFifo(l: Lane, gone: Rq, fifo: seq<Rq>) {
    && (forall x :: x in fifo <==> x in l.fifo && x != gone)
    && (forall i, j :: 0 <= i < j < |fifo| ==> fifo[i] != fifo[j])
  }

  lemma MergedIntoValid(s: As, r: Rq, gone: Rq, fifo: seq<Rq>, pick: Option<Rq>)
    requires Valid(s) && gone.sync == r.sync && gone in LaneOf(s, r.sync).tree
    requires MergedFifo(LaneOf(s, r.sync), gone, fifo) && Pickable(LaneOf(s, r.sync), {gone}, pick)
    ensures Valid(MergedInto(s, r, gone, fifo, pick))
  {
    var s' := MergedInto(s, r, gone, fifo, pick);
    assert s.ioContext.Some? && Awaited(s, s.ioContext.value) ==> Awaited(s', s.ioContext.value);
  }

  // --------------------------------------------------------------- every run

  /** What can happen to the scheduler.  A forced dispatch is a reset followed by
      moves of next_rq. */
  datatype Op =
    | AddRequest(r: Rq, alias: Option<Rq>, better: bool, c: Choices)
    | DispatchOne(c: Choices)
    | CompleteRequest(r: Rq)
    | TimerFires
    | MergeFront(r: Rq, alias: Option<Rq>, pick: Option<Rq>)
    | MergeRequests(r: Rq, gone: Rq, fifo: seq<Rq>, pick: Option<Rq>)
    | ForceReset
    | ForceMove(dir: bool, pick: Option<Rq>)

  ghost predicate Enabled(s: As, op: Op) {
    match op
    case AddRequest(r, alias, _, c) =>
      && Fresh(s, r) && FindOk(s, c)
      && (alias.Some? ==> alias.value.sync == r.sync && alias.value in LaneOf(s, r.sync).tree)
    case DispatchOne(c) => FindOk(s, c)
    case CompleteRequest(r) => r in s.issued
    case TimerFires => s.timer
    case MergeFront(r, alias, pick) =>
      && r in LaneOf(s, r.sync).tree
      && (alias.Some? ==> alias.value.sync == r.sync && alias.value in LaneOf(s, r.sync).tree && alias.value != r)
      && Pickable(LaneOf(s, r.sync), if alias.Some? then {alias.value, r} else {r}, pick)
    case MergeRequests(r, gone, fifo, pick) =>
      && gone.sync == r.sync && gone in LaneOf(s, r.sync).tree
      && MergedFifo(LaneOf(s, r.sync), gone, fifo) && Pickable(LaneOf(s, r.sync), {gone}, pick)
    case ForceReset => true
    case ForceMove(dir, pick) =>
      LaneOf(s, dir).next.Some? && Pickable(LaneOf(s, dir), {LaneOf(s, dir).next.value}, pick)
  }

  ghost function Apply(s: As, op: Op): As
    requires Valid(s) && Enabled(s, op)
  {
    match op
    case AddRequest(r, alias, better, c) => Add(s, r, alias, better, c)
    case DispatchOne(c) => Dispatch(s, c).s
    case CompleteRequest(r) => Completed(s, r)
    case TimerFires => Timeout(s)
    case MergeFront(r, alias, pick) => FrontMerged(s, r, alias, pick)
    case MergeRequests(r, gone, fifo, pick) => MergedInto(s, r, gone, fifo, pick)
    case ForceReset => s.(batchSync := true, changedBatch := false, newBatch := false)
    case ForceMove(dir, pick) => MoveToDispatch(s, LaneOf(s, dir).next.value, pick)
  }

  lemma StepValid(s: As, op: Op)
    requires Valid(s) && Enabled(s, op)
    ensures Valid(Apply(s, op))
  {
    match op
    case AddRequest(r, alias, better, c) => AddValid(s, r, alias, better, c);
    case DispatchOne(c) => DispatchValid(s, c);
    case CompleteRequest(r) => CompletedValid(s, r);
    case TimerFires => TimeoutValid(s);
    case MergeFront(r, alias, pick) => FrontMergedValid(s, r, alias, pick);
    case MergeRequests(r, gone, fifo, pick) => MergedIntoValid(s, r, gone, fifo, pick);
    case ForceReset =>
      assert s.ioContext.Some? && Awaited(s, s.ioContext.value) ==> Awaited(Apply(s, op), s.ioContext.value);
    case ForceMove(dir, pick) => MoveValid(s, LaneOf(s, dir).next.value, pick);
  }

  /** A state reached by some run. */
  ghost predicate Reaches(s: As, run: seq<Op>, s': As)
    requires Valid(s)
    decreases |run|
  {
    if run == [] then s' == s
    else
      Enabled(s, run[0]) &&
      (StepValid(s, run[0]);
       Reaches(Apply(s, run[0]), run[1..], s'))
  }

  lemma {:induction false} RunValid(s: As, run: seq<Op>, s': As)
    requires Valid(s) && Reaches(s, run, s')
    ensures Valid(s')
    decreases |run|
  {
    if run != [] {
      StepValid(s, run[0]);
      RunValid(Apply(s, run[0]), run[1..], s');
    }
  }

  lemma InitValid()
    ensures Valid(Init())
  {
  }

  /** A state the scheduler reaches from its start. */
  ghost predicate Reachable(run: seq<Op>, s: As) {
    InitValid();
    Reaches(Init(), run, s)
  }

  lemma ReachableValid(run: seq<Op>, s: As)
    requires Reachable(run, s)
    ensures Valid(s)
  {
    InitValid();
    RunValid(Init(), run, s);
  }

  /** In every reachable state a dispatch that returns nothing although requests are
      queued leaves an uncompleted request or an armed timer; while waiting, the
      awaited process is known. */
  lemma NoWakeupIsLost(run: seq<Op>, s: As, c: Choices)
    requires Reachable(run, s) && FindOk(s, c)
    ensures Valid(s) && (Waiting(s) ==> s.ioContext.Some?)
    ensures WillRunAgain(Dispatch(s, c).s, Dispatch(s, c).rq)
  {
    ReachableValid(run, s);
    DispatchValid(s, c);
  }

  // ------------------------------------------------------------- no request is lost

  /** The requests the scheduler or the driver holds. */
  function Everywhere(s: As): set<Rq> { s.sync.tree + s.async.tree + s.issued }

  /** The requests there should be, by what has happened. */
  function Known(rqs: set<Rq>, op: Op): set<Rq> {
    match op
    case AddRequest(r, _, _, _) => rqs + {r}
    case CompleteRequest(r) => rqs - {r}
    case MergeRequests(_, gone, _, _) => rqs - {gone}
    case _ => rqs
  }

  function KnownAfter(rqs: set<Rq>, run: seq<Op>): set<Rq>
    decreases |run|
  {
    if run == [] then rqs else KnownAfter(Known(rqs, run[0]), run[1..])
  }

  lemma MoveKeeps(s: As, r: Rq, pick: Option<Rq>)
    requires LaneOk(s.sync, true) && LaneOk(s.async, false) && r in LaneOf(s, r.sync).tree
    ensures Everywhere(AnticStop(MoveToDispatch(s, r, pick))) == Everywhere(s)
    ensures Everywhere(MoveToDispatch(s, r, pick)) == Everywhere(s)
  {
    MoveSends(s, r, pick);
  }

  lemma AddKeeps(s: As, r: Rq, alias: Option<Rq>, better: bool, c: Choices)
    requires Valid(s) && Enabled(s, AddRequest(r, alias, better, c))
    ensures Everywhere(Add(s, r, alias, better, c)) == Everywhere(s) + {r}
  {
    var s1 := s;
    if alias.Some? {
      MoveKeeps(s, alias.value, c.find(alias.value));
      s1 := AnticStop(MoveToDispatch(s, alias.value, c.find(alias.value)));
    }
    EnqueuedKeeps(s1, r, better);
    StopKeeps(Enqueued(s1, r, better));
  }

  lemma EnqueuedKeeps(s: As, r: Rq, better: bool)
    ensures Everywhere(Enqueued(s, r, better)) == Everywhere(s) + {r}
  {
    if r.sync {
      assert Enqueued(s, r, better).sync.tree == s.sync.tree + {r};
    } else {
      assert Enqueued(s, r, better).async.tree == s.async.tree + {r};
    }
  }

  lemma StopKeeps(s: As)
    ensures Everywhere(AnticStop(s)) == Everywhere(s)
  {
    assert AnticStop(s).sync == s.sync && AnticStop(s).async == s.async && AnticStop(s).issued == s.issued;
  }

  lemma FrontKeeps(s: As, r: Rq, alias: Option<Rq>, pick: Option<Rq>)
    requires Valid(s) && Enabled(s, MergeFront(r, alias, pick))
    ensures Everywhere(FrontMerged(s, r, alias, pick)) == Everywhere(s)
  {
    if alias.Some? {
      MoveKeeps(s, alias.value, pick);
      OthersStayQueued(s, r, alias.value, pick);
      PutBack(AnticStop(MoveToDispatch(s, alias.value, pick)), r);
    } else {
      PutBack(s, r);
    }
  }

  lemma DispatchKeeps(s: As, c: Choices)
    requires Valid(s)
    ensures Everywhere(Dispatch(s, c).s) == Everywhere(s)
  {
    DispatchSends(s, c);
  }

  lemma MergedKeeps(s: As, r: Rq, gone: Rq, fifo: seq<Rq>, pick: Option<Rq>)
    requires Valid(s) && gone.sync == r.sync && gone in LaneOf(s, r.sync).tree
    ensures Everywhere(MergedInto(s, r, gone, fifo, pick)) == Everywhere(s) - {gone}
  {
    assert gone !in s.issued && gone !in LaneOf(s, !r.sync).tree;
  }

  lemma CompletedKeeps(s: As, r: Rq)
    requires Valid(s) && r in s.issued
    ensures Everywhere(Completed(s, r)) == Everywhere(s) - {r}
  {
    CompletedLanes(s, r);
    assert r !in s.sync.tree && r !in s.async.tree;
  }

  lemma CompletedLanes(s: As, r: Rq)
    ensures var s' := Completed(s, r); s'.sync == s.sync && s'.async == s.async && s'.issued == s.issued - {r}
  {
  }

  lemma StepKeeps(s: As, op: Op)
    requires Valid(s) && Enabled(s, op)
    ensures Everywhere(Apply(s, op)) == Known(Everywhere(s), op)
  {
    match op
    case AddRequest(r, alias, better, c) => AddKeeps(s, r, alias, better, c);
    case DispatchOne(c) => DispatchKeeps(s, c);
    case CompleteRequest(r) => CompletedKeeps(s, r);
    case TimerFires =>
    case MergeFront(r, alias, pick) => FrontKeeps(s, r, alias, pick);
    case MergeRequests(r, gone, fifo, pick) => MergedKeeps(s, r, gone, fifo, pick);
    case ForceReset =>
    case ForceMove(dir, pick) => MoveKeeps(s, LaneOf(s, dir).next.value, pick);
  }

  /** In every reachable state the scheduler and the driver hold the requests that were
      added and neither completed nor absorbed. */
  lemma {:induction false} RunKeeps(s: As, run: seq<Op>, s': As)
    requires Valid(s) && Reaches(s, run, s')
    ensures Everywhere(s') == KnownAfter(Everywhere(s), run)
    decreases |run|
  {
    if run != [] {
      StepValid(s, run[0]);
      StepKeeps(s, run[0]);
      RunKeeps(Apply(s, run[0]), run[1..], s');
    }
  }
}
