/** The queue of block/elevator.c and block/blk-barrier.c as an object updated in
    place.  Each method is proved against a state function, so what holds over all
    runs of the model holds of these methods. */
module BarrierQueue {
  import opened Wrappers
  import opened BarrierModel
  import opened BarrierStages

  class RequestQueue {
    var head: seq<Request>
    var sorted: set<Request>
    var driver: set<Request>
    var inFlight: int
    var ordcolor: bool
    var ordseq: set<nat>
    var ordered: Mode
    var nextOrdered: Mode
    var orig: Option<Request>
    var orderr: int
    ghost var epoch: nat
    ghost var log: seq<Request>
    ghost var done: set<nat>
    ghost var taken: nat
    ghost var ended: seq<(nat, int)>
    ghost var errs: seq<int>

    ghost function View(): Queue
      reads this
    {
      Queue(head, sorted, driver, inFlight, ordcolor, ordseq, ordered, nextOrdered, orig, orderr,
            epoch, log, done, taken, ended, errs)
    }

    constructor (mode: Mode)
      ensures View() == Init(mode)
    {
      head, sorted, driver, inFlight := [], {}, {}, 0;
      ordcolor, ordseq, ordered, nextOrdered, orig, orderr := false, {}, mode, mode, None, 0;
      epoch, log, done, taken, ended, errs := 0, [], {}, 0, [], [];
    }

    /** blk_ordered_complete_seq. */
    method FinishSeq(bits: set<nat>, error: int) returns (complete: bool)
      modifies this`orderr, this`errs, this`ordseq, this`ended, this`done
      ensures View() == CompleteSeq(old(View()), bits, error)
      ensures complete <==> CurSeq(old(ordseq) + bits) == DONE
    {
      if error != 0 && orderr == 0 {
        orderr := error;
      }
      errs := errs + [error];
      ordseq := ordseq + bits;
      if CurSeq(ordseq) != DONE {
        return false;
      }
      ordseq := {};
      if orig.Some? {
        ended := ended + [(orig.value.ticket, orderr)];
        done := done + {orig.value.ticket};
      }
      return true;
    }

    /** elv_insert with ELEVATOR_INSERT_FRONT. */
    method PushFront(r: Request)
      modifies this`head
      ensures View() == InsertFront(old(View()), r)
    {
      head := [r.(soft := true)] + head;
    }

    /** The part of start_ordered that stacks the stage requests on the head. */
    method StackStages(epoch: nat) returns (rq: Option<Request>, skip: set<nat>)
      modifies this`head
      ensures View() == QueueStages(old(View()), epoch)
      ensures skip == Skipped(ordered, true)
      ensures rq == if AnyStage(ordered) then Some(head[0]) else None
    {
      rq, skip := None, {};
      if ordered.doPostflush {
        PushFront(StageRequest(PostFlushRq, epoch));
        rq := Some(head[0]);
      } else {
        skip := skip + {POSTFLUSH};
      }
      if ordered.doBar {
        PushFront(StageRequest(BarRq, epoch));
        rq := Some(head[0]);
      } else {
        skip := skip + {BAR};
      }
      if ordered.doPreflush {
        PushFront(StageRequest(PreFlushRq, epoch));
        rq := Some(head[0]);
      } else {
        skip := skip + {PREFLUSH};
      }
    }

    /** The part of start_ordered that resets the error and sets the mode. */
    method BeginSeq(empty: bool)
      modifies this`orderr, this`errs, this`ordered, this`ordseq
      ensures View() == old(View()).(orderr := 0, errs := [], ordered := StartMode(nextOrdered, empty),
                                     ordseq := old(ordseq) + {STARTED})
    {
      orderr := 0;
      errs := [];
      ordered := StartMode(nextOrdered, empty);
      ordseq := ordseq + {STARTED};
    }

    /** The part of start_ordered that stashes the original request. */
    method Stash()
      requires head != []
      modifies this`head, this`taken, this`orig
      ensures View() == old(View()).(head := old(head)[1..], orig := Some(old(head[0])), taken := old(taken) + 1)
    {
      var b := head[0];
      head := head[1..];
      taken := taken + 1;
      orig := Some(b);
    }

    /** start_ordered up to the completion of the skipped stages. */
    method Prepare() returns (rq: Option<Request>, skip: set<nat>)
      requires head != []
      modifies this`orderr, this`errs, this`ordered, this`ordseq, this`head, this`taken, this`orig
      ensures View() == QueueStages(Stashed(old(View())), old(head[0]).epoch)
      ensures skip == Skipped(ordered, true)
      ensures rq == if AnyStage(ordered) then Some(head[0]) else None
    {
      var b := head[0];
      BeginSeq(b.empty);
      Stash();
      assert View() == Stashed(old(View()));
      rq, skip := StackStages(b.epoch);
    }

    /** start_ordered. */
    method Start() returns (rq: Option<Request>, present: bool)
      requires head != []
      modifies this
      ensures Ordered(View(), rq, present) == StartOrdered(old(View()))
    {
      ghost var q := View();
      var skip;
      rq, skip := Prepare();
      SkipsOf(q);
      if ordered.byDrain && inFlight != 0 {
        rq := None;
      } else {
        skip := skip + {DRAIN};
      }
      ghost var q2 := View();
      var complete := FinishSeq(skip, 0);
      present := !complete;
      StartIs(q, q2, rq, complete);
    }

    /** blk_do_ordered on the request at the head: what is handed out is the request that is
        then at the head, and a barrier that is taken is refused, ended or started. */
    method AskHead() returns (rq: Option<Request>, present: bool)
      requires head != []
      modifies this
      ensures Ordered(View(), rq, present) == DoOrdered(old(View()))
      ensures rq.Some? ==> head != [] && rq.value == head[0]
      ensures old(StageInv(View())) ==> Asks(old(View()), View())
    {
      HandsOutHead(View());
      AskPromises(View());
      var r := head[0];
      var barrier := FsRequest(r) && r.hard;
      if ordseq == {} {
        if !barrier {
          return Some(r), true;
        }
        if nextOrdered != ORDERED_NONE {
          rq, present := Start();
          return;
        }
        head := head[1..];
        taken := taken + 1;
        done := done + {r.ticket};
        ended := ended + [(r.ticket, EOPNOTSUPP)];
        return None, false;
      }
      if r.kind == Special {
        return Some(r), true;
      }
      rq := Some(r);
      if ordered.byTag {
        if barrier && r.kind != BarRq {
          rq := None;
        }
      } else if SeqOf(orig, r) > CurSeq(ordseq) {
        rq := None;
      }
      present := true;
    }

    /** The scan of ELEVATOR_INSERT_REQUEUE. */
    method Reinsert(r: Request)
      modifies this`head
      ensures View() == Reinserted(old(View()), r)
    {
      var r1 := r.(soft := true);
      if ordseq == {} {
        head := [r1] + head;
        return;
      }
      var bit := SeqOf(orig, r1);
      var pos := 0;
      while pos < |head| && SeqOf(orig, head[pos]) < bit
        invariant 0 <= pos <= |head|
        invariant RequeuePos(View(), bit, 0) == RequeuePos(View(), bit, pos)
      {
        pos := pos + 1;
      }
      head := head[..pos] + [r1] + head[pos..];
    }

    /** elv_requeue_request. */
    method RequeueRequest(r: Request)
      requires r in driver
      modifies this`driver, this`inFlight, this`head
      ensures View() == Apply(old(View()), DriverRequeue(r))
    {
      driver := driver - {r};
      if Accounted(r) {
        inFlight := inFlight - 1;
      }
      assert View() == Released(old(View()), r);
      Reinsert(r.(started := false));
    }

    /** elv_completed_request for a request already off the driver's books. */
    method CheckDrained()
      modifies this`orderr, this`errs, this`ordseq, this`ended, this`done
      ensures View() == DrainCheck(old(View()))
    {
      if ordseq != {} && inFlight == 0 && CurSeq(ordseq) == DRAIN
         && (head == [] || SeqOf(orig, head[0]) > DRAIN)
      {
        var _ := FinishSeq({DRAIN}, 0);
      }
    }

    /** Completion, through the end_io function of a stage request. */
    method CompleteRequest(r: Request, error: int)
      requires r in driver
      modifies this`driver, this`inFlight, this`orderr, this`errs, this`ordseq, this`ended, this`done
      ensures View() == Apply(old(View()), DriverComplete(r, error))
    {
      driver := driver - {r};
      if Accounted(r) {
        inFlight := inFlight - 1;
      }
      if !IsStage(r) {
        done := done + {r.ticket};
      }
      assert View() == Returned(old(View()), r);
      CheckDrained();
      if IsStage(r) {
        var _ := FinishSeq({StageBit(r)}, error);
      }
    }

    /** blk_start_request on the request at the head: it becomes the driver's. */
    method TakeHead() returns (r: Request)
      requires head != []
      modifies this`head, this`driver, this`inFlight
      ensures r == old(head[0]).(started := true)
      ensures View() == old(View()).(head := old(head)[1..], driver := old(driver) + {r},
                                     inFlight := old(inFlight) + if Accounted(r) then 1 else 0)
    {
      r := head[0].(started := true);
      head := head[1..];
      driver := driver + {r};
      if Accounted(r) {
        inFlight := inFlight + 1;
      }
    }

    /** One turn at the head: ask, and take what is handed out. */
    method Turn() returns (rq: Option<Request>, present: bool)
      requires head != []
      modifies this
      ensures View() == Next(old(View()), true)
      ensures rq.Some? ==> rq.value in driver
      ensures rq.None? ==> driver == old(driver) && (!present ==> |head| < |old(head)|)
    {
      HandsOutHead(View());
      GoneShortens(View());
      rq, present := AskHead();
      if rq.Some? {
        var r := TakeHead();
        rq := Some(r);
      }
    }

    /** The scan of __elv_next_request over queue_head followed by
        blk_start_request: the driver takes what the barrier rules allow. */
    method FetchRequest() returns (rq: Option<Request>, ghost run: seq<Op>)
      modifies this
      ensures IsRun(old(View()), run) && View() == After(old(View()), run)
      ensures forall i :: 0 <= i < |run| ==> run[i] == DriverNext(true)
      ensures rq.Some? ==> rq.value in driver
      ensures rq.None? ==> driver == old(driver)
    {
      run := [];
      while head != []
        invariant IsRun(old(View()), run) && View() == After(old(View()), run)
        invariant forall i :: 0 <= i < |run| ==> run[i] == DriverNext(true)
        invariant driver == old(driver)
        decreases |head|
      {
        RunThen(old(View()), run, DriverNext(true));
        var present;
        rq, present := Turn();
        run := run + [DriverNext(true)];
        if rq.Some? || present {
          return;
        }
      }
      rq := None;
    }
  }

  /** The mode the queue is in when the stages have been stacked. */
  lemma SkipsOf(q: Queue)
    requires q.head != []
    ensures var q2 := QueueStages(Stashed(q), q.head[0].epoch);
            && q2.ordered == StartMode(q.nextOrdered, q.head[0].empty) && q2.inFlight == q.inFlight
            && StartSkip(q) == Skipped(q2.ordered, true) + if MustDrain(q) then {} else {DRAIN}
  {
  }

  lemma StartIs(q: Queue, q2: Queue, rq: Option<Request>, complete: bool)
    requires q.head != [] && q2 == QueueStages(Stashed(q), q.head[0].epoch)
    requires rq == if MustDrain(q) || !AnyStage(q2.ordered) then None else Some(q2.head[0])
    requires AnyStage(q2.ordered) ==> q2.head != []
    requires complete <==> CurSeq(q2.ordseq + StartSkip(q)) == DONE
    ensures Ordered(CompleteSeq(q2, StartSkip(q), 0), rq, !complete) == StartOrdered(q)
  {
    assert STARTED in q2.ordseq;
  }

  /** The bookkeeping stays exact; the queue changes only if a barrier is taken. */
  ghost predicate Asks(q: Queue, q': Queue)
    requires q.head != []
  {
    StageInv(q') && if TakesBarrier(q, DriverNext(true)) then Begins(q, q') else q' == q
  }

  lemma AskPromises(q: Queue)
    requires q.head != []
    ensures StageInv(q) ==> Asks(q, DoOrdered(q).q)
  {
    if StageInv(q) { DoOrderedStages(q); }
  }

  lemma StartGone(q: Queue)
    requires q.head != [] && q.ordseq == {} && !StartOrdered(q).present
    ensures StartOrdered(q).q.head == q.head[1..]
  {
  }

  /** A request that is gone has left the queue shorter. */
  lemma GoneShortens(q: Queue)
    requires q.head != []
    ensures DoOrdered(q).rq.None? && !DoOrdered(q).present ==> |DoOrdered(q).q.head| < |q.head|
  {
    if q.ordseq == {} && !StartOrdered(q).present { StartGone(q); }
  }
}
