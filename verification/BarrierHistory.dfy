/** No request is lost or completed twice: every ticket handed out is completed,
    or in exactly one place, or stashed as the barrier in progress. */
module BarrierHistory {
  import opened Wrappers
  import opened BarrierModel
  import opened BarrierStages

  ghost predicate Stashes(q: Queue, t: int) {
    q.ordseq != {} && q.orig.Some? && t == q.orig.value.ticket
  }

  ghost predicate Live(q: Queue, t: int) {
    t in Keys(q.head) || t in SetKeys(q.sorted) || t in SetKeys(q.driver) || Stashes(q, t)
  }

  ghost predicate Conserved(q: Queue) {
    && (forall t: nat :: t in q.done ==> t < |q.log|)
    && (forall t: nat :: t < |q.log| ==> (t in q.done <==> !Live(q, t)))
  }

  /** Same live tickets, same completed ones. */
  lemma SameLive(q: Queue, q': Queue)
    requires Conserved(q) && q'.done == q.done && q'.log == q.log
    requires forall t: nat :: Live(q, t) <==> Live(q', t)
    ensures Conserved(q')
  {
  }

  /** One live ticket becomes a completed one. */
  lemma OneDone(q: Queue, q': Queue, d: nat)
    requires Conserved(q) && q'.done == q.done + {d} && q'.log == q.log && d < |q.log|
    requires forall t: nat :: Live(q', t) <==> Live(q, t) && t != d
    ensures Conserved(q')
  {
  }

  lemma ArrivalConserved(q: Queue, op: Op)
    requires StageInv(q) && Conserved(q) && Enabled(q, op) && (op.AddSorted? || op.AddBack? || op.AddFront?)
    ensures Conserved(Apply(q, op))
  {
    var q' := Apply(q, op);
    var r := q'.log[|q.log|];
    if op.AddSorted? {
      AddKey(q.sorted, r);
    } else {
      var p := if op.AddFront? then 0 else |q.head|;
      assert q'.head == InsertAt(q.head, p, r);
      InsertKeys(q.head, p, r);
    }
    assert forall t: nat :: Live(q', t) <==> Live(q, t) || t == |q.log|;
  }

  lemma DispatchConserved(q: Queue, r: Request, p: nat)
    requires StageInv(q) && Conserved(q) && Enabled(q, Dispatch(r, p))
    ensures Conserved(Apply(q, Dispatch(r, p)))
  {
    assert Key(r) in SetKeys(q.sorted);
    InsertKeys(q.head, p, r);
    DropKey(q.sorted, r);
    SameLive(q, Apply(q, Dispatch(r, p)));
  }

  lemma MoveConserved(q: Queue, q': Queue, r: Request, r': Request, p: nat)
    requires StageInv(q) && Conserved(q) && r in q.driver && Key(r') == Key(r) && p <= |q.head|
    requires q' == q.(driver := q.driver - {r}, inFlight := q'.inFlight, head := InsertAt(q.head, p, r'))
    ensures Conserved(q')
  {
    assert Key(r) in SetKeys(q.driver);
    InsertKeys(q.head, p, r');
    DropKey(q.driver, r);
    SameLive(q, q');
  }

  lemma RequeueConserved(q: Queue, r: Request)
    requires StageInv(q) && Conserved(q) && r in q.driver
    ensures Conserved(Requeue(q, r))
  {
    var r1 := r.(started := false, soft := true);
    var q1 := q.(driver := q.driver - {r}, inFlight := q.inFlight - if Accounted(r) then 1 else 0);
    MoveConserved(q, Requeue(q, r), r, r1, if q.ordseq == {} then 0 else RequeuePos(q1, ReqSeq(q1, r1), 0));
  }

  /** Setting bits completes the stashed barrier or nothing. */
  lemma CompleteConserved(q: Queue, bits: set<nat>, error: int)
    requires Conserved(q) && Tickets(q) && q.ordseq != {} && q.orig.Some?
    ensures Conserved(CompleteSeq(q, bits, error))
  {
    var q' := CompleteSeq(q, bits, error);
    if CurSeq(q.ordseq + bits) == DONE {
      var d := q.orig.value.ticket;
      assert Live(q, d);
      OneDone(q, q', d);
    } else {
      assert q'.ordseq != {};
      SameLive(q, q');
    }
  }

  lemma ReturnedConserved(q: Queue, r: Request)
    requires StageInv(q) && Conserved(q) && r in q.driver
    ensures Conserved(Returned(q, r))
  {
    var q' := Returned(q, r);
    assert Key(r) in SetKeys(q.driver);
    DropKey(q.driver, r);
    if IsStage(r) {
      SameLive(q, q');
    } else {
      assert forall t: nat :: Live(q', t) <==> Live(q, t) && t != r.ticket;
      OneDone(q, q', r.ticket);
    }
  }

  lemma CompletedConserved(q: Queue, r: Request, error: int)
    requires StageInv(q) && Conserved(q) && r in q.driver
    ensures Conserved(Complete(q, r, error))
  {
    ReturnedConserved(q, r);
    ReturnedKeys(q, r);
    var q1 := Returned(q, r);
    if DrainCheck(q1) != q1 { CompleteConserved(q1, {DRAIN}, 0); }
    if IsStage(r) { StageConserved(q1, StageBit(r), error); }
  }

  lemma StageConserved(q1: Queue, bit: nat, error: int)
    requires Conserved(q1) && Tickets(q1) && q1.ordseq != {} && q1.orig.Some? && bit !in q1.ordseq
    requires Conserved(DrainCheck(q1)) && PREFLUSH <= bit <= POSTFLUSH
    ensures Conserved(CompleteSeq(DrainCheck(q1), {bit}, error))
  {
    CompleteConserved(DrainCheck(q1), {bit}, error);
  }

  // --------------------------------------------------------- the driver's turn

  lemma PushLive(q: Queue, kind: Kind, epoch: nat)
    requires IsStage(StageRequest(kind, epoch))
    ensures forall t: nat :: Live(InsertFront(q, StageRequest(kind, epoch)), t) <==> Live(q, t)
  {
    var r := StageRequest(kind, epoch);
    assert InsertFront(q, r).head == InsertAt(q.head, 0, r);
    InsertKeys(q.head, 0, r);
  }

  lemma QueueStagesLive(q: Queue, epoch: nat)
    ensures forall t: nat :: Live(QueueStages(q, epoch), t) <==> Live(q, t)
  {
    var q1 := if q.ordered.doPostflush then InsertFront(q, StageRequest(PostFlushRq, epoch)) else q;
    PushLive(q, PostFlushRq, epoch);
    var q2 := if q.ordered.doBar then InsertFront(q1, StageRequest(BarRq, epoch)) else q1;
    PushLive(q1, BarRq, epoch);
    PushLive(q2, PreFlushRq, epoch);
    assert forall t: nat :: Live(q2, t) <==> Live(q, t);
  }

  lemma StartConserved(q: Queue)
    requires StageInv(q) && Conserved(q) && q.head != [] && q.ordseq == {} && q.head[0].kind == Fs
    ensures Conserved(StartOrdered(q).q)
  {
    var q1, e := Stashed(q), q.head[0].epoch;
    var q2 := QueueStages(q1, e);
    PopKeys(q.head);
    SameLive(q, q1);
    QueueStagesLive(q1, e);
    SameLive(q1, q2);
    StashOriginal(q);
    PushStages(q1, e);
    CompleteConserved(q2, StartSkip(q), 0);
  }

  lemma DoOrderedConserved(q: Queue)
    requires StageInv(q) && Conserved(q) && q.head != []
    ensures Conserved(DoOrdered(q).q)
  {
    var r := q.head[0];
    assert Key(r) in Keys(q.head);
    if q.ordseq == {} {
      assert !Pending(q, BAR);
      if r.kind == Fs && r.hard {
        if q.nextOrdered != ORDERED_NONE { StartConserved(q); }
        else {
          PopKeys(q.head);
          assert forall t: nat :: Live(DoOrdered(q).q, t) <==> Live(q, t) && t != r.ticket;
          OneDone(q, DoOrdered(q).q, r.ticket);
        }
      }
    }
  }

  lemma HandConserved(q: Queue, q': Queue, take: bool)
    requires StageInv(q) && Conserved(q) && q.head != []
    requires var r := q.head[0].(started := true);
             if take then q' == q.(head := q.head[1..], driver := q.driver + {r}, inFlight := q'.inFlight)
             else q' == q.(head := [r] + q.head[1..])
    ensures Conserved(q')
  {
    if take {
      PopKeys(q.head);
      AddKey(q.driver, q.head[0].(started := true));
    } else {
      PeekKeys(q.head);
    }
    SameLive(q, q');
  }

  lemma NextConserved(q: Queue, take: bool)
    requires StageInv(q) && Conserved(q) && q.head != []
    ensures Conserved(Next(q, take))
  {
    DoOrderedConserved(q);
    DoOrderedStages(q);
    HandsOutHead(q);
    if DoOrdered(q).rq.Some? { HandConserved(DoOrdered(q).q, Next(q, take), take); }
  }

  lemma StepConserved(q: Queue, op: Op)
    requires StageInv(q) && Conserved(q) && Enabled(q, op)
    ensures Conserved(Apply(q, op))
  {
    match op
    case AddSorted => ArrivalConserved(q, op);
    case AddBack(_, _, _) => ArrivalConserved(q, op);
    case AddFront(_) => ArrivalConserved(q, op);
    case Dispatch(r, p) => DispatchConserved(q, r, p);
    case DriverNext(take) => NextConserved(q, take);
    case DriverComplete(r, error) => CompletedConserved(q, r, error);
    case DriverRequeue(r) => RequeueConserved(q, r);
    case ProxyError(error) => SameLive(q, Apply(q, op));
  }

  lemma {:induction false} RunConserved(q: Queue, run: seq<Op>)
    requires StageInv(q) && Conserved(q) && IsRun(q, run)
    ensures Conserved(After(q, run))
    decreases |run|
  {
    if run != [] {
      StepStages(q, run[0]);
      StepConserved(q, run[0]);
      RunConserved(Apply(q, run[0]), run[1..]);
    }
  }

  /** In every mode and every run, each request that ever arrived is completed or
      in exactly one place. */
  lemma NoRequestIsLost(mode: Mode, run: seq<Op>, t: nat)
    requires ValidMode(mode) && IsRun(Init(mode), run) && t < |After(Init(mode), run).log|
    ensures var q := After(Init(mode), run);
            && Unique(q)
            && (t in q.done <==> !Live(q, t))
            && (Stashes(q, t) ==> t !in Keys(q.head) && t !in SetKeys(q.sorted) && t !in SetKeys(q.driver))
  {
    InitStages(mode);
    RunStages(Init(mode), run);
    RunConserved(Init(mode), run);
  }
}
