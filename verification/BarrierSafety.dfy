/** The promises of a barrier ordered by draining, over every run. */
module BarrierSafety {
  import opened Wrappers
  import opened BarrierModel
  import opened BarrierStages
  import opened BarrierHistory
  import opened BarrierDrain

  // ------------------------------------------------------ arrivals and epochs

  /** `r` is the request that arrived with its ticket, flags aside. */
  ghost predicate Logged(q: Queue, r: Request) {
    !IsStage(r) ==>
      && r.ticket < |q.log|
      && r.kind == q.log[r.ticket].kind && r.hard == q.log[r.ticket].hard && r.epoch == q.log[r.ticket].epoch
  }

  /** The epoch of an arrival counts the fs barriers that arrived before it. */
  ghost predicate LogOrdered(q: Queue) {
    && (forall t :: 0 <= t < |q.log| ==> q.log[t].epoch <= q.epoch)
    && (forall t :: 0 <= t < |q.log| && q.log[t].kind == Fs && q.log[t].hard ==> q.log[t].epoch < q.epoch)
    && (forall t, u :: 0 <= t < u < |q.log| ==> q.log[t].epoch <= q.log[u].epoch)
    && (forall t, u :: 0 <= t < u < |q.log| && q.log[t].kind == Fs && q.log[t].hard ==> q.log[t].epoch < q.log[u].epoch)
  }

  ghost predicate Epochs(q: Queue) {
    && LogOrdered(q)
    && (forall r :: r in q.head ==> Logged(q, r))
    && (forall r :: r in q.sorted ==> Logged(q, r))
    && (forall r :: r in q.driver ==> Logged(q, r))
    && (q.orig.Some? ==> Logged(q, q.orig.value))
  }

  lemma ArrivalEpochs(q: Queue, op: Op)
    requires Epochs(q) && Enabled(q, op) && (op.AddSorted? || op.AddBack? || op.AddFront?)
    ensures Epochs(Apply(q, op))
  {
    var q' := Apply(q, op);
    var r := q'.log[|q.log|];
    assert forall t :: 0 <= t < |q.log| ==> q'.log[t] == q.log[t];
    assert forall x :: Logged(q, x) ==> Logged(q', x);
    assert Logged(q', r);
    if !op.AddSorted? {
      assert forall x :: x in q'.head ==> x == r || x in q.head;
    }
  }

  /** Epochs depend only on the arrivals and on which requests are where. */
  lemma SubEpochs(q: Queue, q': Queue)
    requires Epochs(q) && q'.log == q.log && q'.epoch == q.epoch
    requires forall x :: x in q'.head ==> Logged(q, x)
    requires q'.sorted <= q.sorted
    requires forall x :: x in q'.driver ==> Logged(q, x)
    requires q'.orig.Some? ==> Logged(q, q'.orig.value)
    ensures Epochs(q')
  {
    assert forall x :: Logged(q, x) ==> Logged(q', x);
  }

  /** Requeueing moves one request back to the head and touches no other. */
  lemma RequeueMoves(q: Queue, r: Request)
    requires r in q.driver
    ensures var q', r1 := Requeue(q, r), r.(started := false, soft := true);
            && (forall x :: x in q'.head ==> x == r1 || x in q.head)
            && q'.sorted == q.sorted && q'.driver <= q.driver && q'.orig == q.orig
            && q'.log == q.log && q'.epoch == q.epoch
  {
    var r1 := r.(started := false, soft := true);
    var q1 := q.(driver := q.driver - {r}, inFlight := q.inFlight - if Accounted(r) then 1 else 0);
    InsertMembers(q.head, if q.ordseq == {} then 0 else RequeuePos(q1, ReqSeq(q1, r1), 0), r1);
  }

  lemma RequeueEpochs(q: Queue, r: Request)
    requires Epochs(q) && r in q.driver
    ensures Epochs(Requeue(q, r))
  {
    var q', r1 := Requeue(q, r), r.(started := false, soft := true);
    RequeueMoves(q, r);
    assert Logged(q, r) && Logged(q, r1);
    forall x | x in q'.head ensures Logged(q, x) { assert x == r1 || x in q.head; }
    SubEpochs(q, q');
  }

  lemma StageMembers(q: Queue, epoch: nat)
    ensures forall x :: x in QueueStages(q, epoch).head ==> IsStage(x) || x in q.head
  {
  }

  lemma StashEpochs(q: Queue)
    requires Epochs(q) && q.head != []
    ensures Epochs(Stashed(q))
  {
    assert q.head[0] in q.head;
    SubEpochs(q, Stashed(q));
  }

  lemma StackEpochs(q: Queue, epoch: nat)
    requires Epochs(q)
    ensures Epochs(QueueStages(q, epoch))
  {
    StageMembers(q, epoch);
    SubEpochs(q, QueueStages(q, epoch));
  }

  lemma StartEpochs(q: Queue)
    requires Epochs(q) && q.head != []
    ensures Epochs(StartOrdered(q).q)
  {
    StashEpochs(q);
    StackEpochs(Stashed(q), q.head[0].epoch);
    SubEpochs(QueueStages(Stashed(q), q.head[0].epoch), StartOrdered(q).q);
  }

  lemma DoOrderedEpochs(q: Queue)
    requires Epochs(q) && q.head != []
    ensures Epochs(DoOrdered(q).q)
  {
    if DoOrdered(q) == StartOrdered(q) { StartEpochs(q); } else { SubEpochs(q, DoOrdered(q).q); }
  }

  lemma NextEpochs(q: Queue, take: bool)
    requires Epochs(q) && q.head != []
    ensures Epochs(Next(q, take))
  {
    DoOrderedEpochs(q);
    var o := DoOrdered(q);
    if o.rq.Some? && o.q.head != [] { HandEpochs(o.q, Next(q, take), take); }
  }

  lemma HandEpochs(q: Queue, q': Queue, take: bool)
    requires Epochs(q) && q.head != []
    requires var r := q.head[0].(started := true);
             if take then q' == q.(head := q.head[1..], driver := q.driver + {r}, inFlight := q'.inFlight)
             else q' == q.(head := [r] + q.head[1..])
    ensures Epochs(q')
  {
    var r := q.head[0].(started := true);
    assert q.head[0] in q.head;
    assert Logged(q, q.head[0]) && Logged(q, r);
    assert forall x :: x in q'.head ==> x == r || x in q.head;
    SubEpochs(q, q');
  }

  lemma StepEpochs(q: Queue, op: Op)
    requires Epochs(q) && Enabled(q, op)
    ensures Epochs(Apply(q, op))
  {
    match op
    case AddSorted => ArrivalEpochs(q, op);
    case AddBack(_, _, _) => ArrivalEpochs(q, op);
    case AddFront(_) => ArrivalEpochs(q, op);
    case Dispatch(r, p) => DispatchEpochs(q, r, p);
    case DriverNext(take) => NextEpochs(q, take);
    case DriverComplete(r, error) => CompleteEpochs(q, r, error);
    case DriverRequeue(r) => RequeueEpochs(q, r);
    case ProxyError(error) => SubEpochs(q, Apply(q, op));
  }

  lemma DispatchEpochs(q: Queue, r: Request, p: nat)
    requires Epochs(q) && Enabled(q, Dispatch(r, p))
    ensures Epochs(Apply(q, Dispatch(r, p)))
  {
    InsertMembers(q.head, p, r);
    SubEpochs(q, Apply(q, Dispatch(r, p)));
  }

  lemma CompleteEpochs(q: Queue, r: Request, error: int)
    requires Epochs(q)
    ensures Epochs(Complete(q, r, error))
  {
    SubEpochs(q, Complete(q, r, error));
  }

  // --------------------------------------------------------------- no stall

  /** While the barrier waits for the drain, something will come back to the queue
      and look again: a counted request in flight, a request at the head that may
      go out at once, or a special request with the driver. */
  ghost predicate NoStall(q: Queue) {
    Active(q) && DRAIN !in q.ordseq ==>
      || q.inFlight > 0
      || (q.head != [] && ReqSeq(q, q.head[0]) == DRAIN)
      || exists r :: r in q.driver && r.kind == Special
  }

  lemma DispatchNoStall(q: Queue, r: Request, p: nat)
    requires Order(q) && NoStall(q) && Enabled(q, Dispatch(r, p))
    ensures NoStall(Apply(q, Dispatch(r, p)))
  {
    if Active(q) && q.head != [] && ReqSeq(q, q.head[0]) == DRAIN {
      assert HeadElem(q, q.head[0]);
      if q.head[0].kind == Fs { FrontEpoch(q); }
      assert Flagged(q.head[0]);
    }
  }

  lemma ActiveNextNoStall(q: Queue, take: bool)
    requires Order(q) && Count(q) && StageInv(q) && NoStall(q) && q.head != [] && q.ordseq != {}
    ensures NoStall(Next(q, take))
  {
    if DoOrdered(q).rq.Some? {
      HandedOutInTurn(q);
      if take { assert q.head[0].(started := true) in Next(q, take).driver; }
    }
  }

  lemma IdleNextNoStall(q: Queue, take: bool)
    requires Order(q) && Count(q) && StageInv(q) && q.head != [] && q.ordseq == {}
    ensures NoStall(Next(q, take))
  {
    if FsRequest(q.head[0]) { HeadIsFs(q); }
    if Starts(q) { StartNoStall(q, take); }
  }

  lemma StartNoStall(q: Queue, take: bool)
    requires Order(q) && Count(q) && StageInv(q) && q.head != [] && q.ordseq == {} && Starts(q)
    ensures NoStall(Next(q, take))
  {
    if DoOrdered(q).rq.Some? { StartHandsOutStage(q); }
  }

  lemma NextNoStall(q: Queue, take: bool)
    requires Order(q) && Count(q) && StageInv(q) && NoStall(q) && q.head != []
    ensures NoStall(Next(q, take))
  {
    if q.ordseq == {} { IdleNextNoStall(q, take); } else { ActiveNextNoStall(q, take); }
  }

  lemma RequeueNoStall(q: Queue, r: Request)
    requires Order(q) && NoStall(q) && r in q.driver
    ensures NoStall(Requeue(q, r))
  {
    assert DriverElem(q, r);
  }

  lemma CompleteNoStall(q: Queue, r: Request, error: int)
    requires Order(q) && Count(q) && StageInv(q) && r in q.driver
    ensures NoStall(Complete(q, r, error))
  {
    assert DriverElem(q, r);
    ReturnedCount(q, r);
  }

  lemma StepNoStall(q: Queue, op: Op)
    requires Order(q) && Count(q) && StageInv(q) && NoStall(q) && Enabled(q, op)
    ensures NoStall(Apply(q, op))
  {
    match op
    case AddSorted =>
    case AddBack(_, _, _) =>
    case AddFront(_) =>
    case Dispatch(r, p) => DispatchNoStall(q, r, p);
    case DriverNext(take) => NextNoStall(q, take);
    case DriverComplete(r, error) => CompleteNoStall(q, r, error);
    case DriverRequeue(r) => RequeueNoStall(q, r);
    case ProxyError(error) =>
  }

  // --------------------------------------------------------------- every run

  ghost predicate DrainInv(q: Queue) {
    StageInv(q) && Conserved(q) && Order(q) && Count(q) && Epochs(q) && NoStall(q)
  }

  lemma StepDrain(q: Queue, op: Op)
    requires DrainInv(q) && Enabled(q, op) && FsBarriersOnly(op)
    ensures DrainInv(Apply(q, op))
  {
    StepStages(q, op);
    StepConserved(q, op);
    StepOrder(q, op);
    StepEpochs(q, op);
    StepNoStall(q, op);
  }

  lemma {:induction false} RunDrain(q: Queue, run: seq<Op>)
    requires DrainInv(q) && IsRun(q, run) && forall i :: 0 <= i < |run| ==> FsBarriersOnly(run[i])
    ensures DrainInv(After(q, run))
    decreases |run|
  {
    if run != [] {
      StepDrain(q, run[0]);
      RunDrain(Apply(q, run[0]), run[1..]);
    }
  }

  /** No fs request that arrived after the barrier in progress is with the driver,
      and if a stage request is, every fs request that arrived before the barrier
      has completed, and so has every earlier stage. */
  ghost predicate BarrierHolds(q: Queue) {
    q.ordseq != {} && q.orig.Some? ==>
      && (forall r :: r in q.driver && r.kind == Fs ==> r.ticket < q.orig.value.ticket)
      && (forall s :: s in q.driver && IsStage(s) ==>
            && (forall t :: 0 <= t < q.orig.value.ticket && t < |q.log| && q.log[t].kind == Fs ==> t in q.done)
            && (forall bit: nat :: bit < StageBit(s) ==> bit in q.ordseq))
  }

  lemma InvariantHolds(q: Queue)
    requires DrainInv(q)
    ensures BarrierHolds(q)
  {
    if q.ordseq != {} {
      var b := q.orig.value;
      forall r | r in q.driver && r.kind == Fs ensures r.ticket < b.ticket {
        assert DriverElem(q, r) && Logged(q, r) && Logged(q, b);
        assert Key(r) in SetKeys(q.driver);
      }
      forall s | s in q.driver && IsStage(s)
        ensures forall t :: 0 <= t < b.ticket && t < |q.log| && q.log[t].kind == Fs ==> t in q.done
        ensures forall bit: nat :: bit < StageBit(s) ==> bit in q.ordseq
      {
        assert DriverElem(q, s);
        forall t | 0 <= t < b.ticket && t < |q.log| && q.log[t].kind == Fs ensures t in q.done {
          EarlierIsDone(q, t);
        }
      }
    }
  }

  /** Once the drain bit is set, what arrived before the barrier is done. */
  lemma EarlierIsDone(q: Queue, t: nat)
    requires DrainInv(q) && q.ordseq != {} && DRAIN in q.ordseq
    requires t < q.orig.value.ticket && t < |q.log| && q.log[t].kind == Fs
    ensures t in q.done
  {
    var b := q.orig.value;
    assert Logged(q, b);
    forall x | x in q.head ensures Key(x) != t {
      var i :| 0 <= i < |q.head| && q.head[i] == x;
      assert HeadElem(q, x) && Logged(q, x);
    }
    forall x | x in q.driver ensures Key(x) != t { assert DriverElem(q, x) && Logged(q, x); }
    forall x | x in q.sorted ensures Key(x) != t { assert SortedElem(q, x) && Logged(q, x); }
    assert !Live(q, t);
  }

  lemma InitDrain(mode: Mode)
    requires ValidMode(mode) && mode.byDrain
    ensures DrainInv(Init(mode))
  {
    InitStages(mode);
  }

  /** The barrier holds after every run in which only fs requests are barriers. */
  lemma DrainSafety(mode: Mode, run: seq<Op>)
    requires ValidMode(mode) && mode.byDrain && IsRun(Init(mode), run)
    requires forall i :: 0 <= i < |run| ==> FsBarriersOnly(run[i])
    ensures BarrierHolds(After(Init(mode), run))
    ensures NoStall(After(Init(mode), run))
  {
    InitDrain(mode);
    RunDrain(Init(mode), run);
    InvariantHolds(After(Init(mode), run));
  }

  // -------------------------------------------- when the colour is not enough

  const ORDINARY := Request(Fs, 0, 0, false, false, false, false, false)
  const HARD_SPECIAL := Request(Special, 1, 0, false, true, true, false, false)
  const BARRIER := Request(Fs, 2, 0, true, true, true, false, false)

  /** One ordinary request is with the driver. */
  function Trace1(mode: Mode): Queue {
    Init(mode).(driver := {ORDINARY.(started := true)}, inFlight := 1, log := [ORDINARY])
  }

  /** So is a special request marked as a hard barrier: it toggled the colour. */
  function Trace2(mode: Mode): Queue {
    Trace1(mode).(driver := {ORDINARY.(started := true), HARD_SPECIAL.(started := true)}, ordcolor := true,
                  log := [ORDINARY, HARD_SPECIAL])
  }

  /** A barrier has arrived, in the other colour. */
  function Trace3(mode: Mode): Queue {
    Trace2(mode).(head := [BARRIER], ordcolor := false, epoch := 1, log := [ORDINARY, HARD_SPECIAL, BARRIER])
  }

  /** One ordinary request is at the head of the queue. */
  function Trace0(mode: Mode): Queue { Init(mode).(head := [ORDINARY], log := [ORDINARY]) }

  lemma ReachTrace0(mode: Mode) returns (run: seq<Op>)
    ensures IsRun(Init(mode), run) && After(Init(mode), run) == Trace0(mode)
  {
    var q := Init(mode);
    run := [AddSorted];
    assert run[1..] == [];
    assert After(q, run) == q.(sorted := {ORDINARY}, log := [ORDINARY]);
    RunThen(q, run, Dispatch(ORDINARY, 0));
    run := run + [Dispatch(ORDINARY, 0)];
  }

  lemma ReachTrace1(mode: Mode) returns (run: seq<Op>)
    ensures IsRun(Init(mode), run) && After(Init(mode), run) == Trace1(mode)
  {
    var q := Init(mode);
    run := ReachTrace0(mode);
    RunThen(q, run, DriverNext(true));
    run := run + [DriverNext(true)];
  }

  lemma ReachTrace2(mode: Mode) returns (run: seq<Op>)
    ensures IsRun(Init(mode), run) && After(Init(mode), run) == Trace2(mode)
  {
    var q := Init(mode);
    run := ReachTrace1(mode);
    RunThen(q, run, AddBack(Special, true, false));
    run := run + [AddBack(Special, true, false)];
    assert After(q, run) == Trace1(mode).(head := [HARD_SPECIAL], ordcolor := true, log := [ORDINARY, HARD_SPECIAL]);
    RunThen(q, run, DriverNext(true));
    run := run + [DriverNext(true)];
  }

  lemma ReachTrace3(mode: Mode) returns (run: seq<Op>)
    ensures IsRun(Init(mode), run) && After(Init(mode), run) == Trace3(mode)
  {
    var q := Init(mode);
    run := ReachTrace2(mode);
    RunThen(q, run, AddBack(Fs, true, false));
    run := run + [AddBack(Fs, true, false)];
  }

  function FirstStage(mode: Mode): Request {
    StageRequest(if mode.doPreflush then PreFlushRq else BarRq, 0)
  }

  ghost predicate Overtaking(q: Queue, mode: Mode) {
    && q.head != [] && q.head[0] == FirstStage(mode) && q.orig == Some(BARRIER) && q.done == {} && !q.ordered.byTag
    && q.log == [ORDINARY, HARD_SPECIAL, BARRIER] && HARD_SPECIAL.(started := true) in q.driver
    && STARTED in q.ordseq && DRAIN !in q.ordseq && StageBit(FirstStage(mode)) !in q.ordseq
    && (mode.doPreflush || PREFLUSH in q.ordseq)
  }

  /** The barrier starts and must drain. */
  lemma StartTrace(mode: Mode)
    requires ValidMode(mode) && mode.byDrain
    ensures var q := Apply(Trace3(mode), DriverNext(true));
            Overtaking(q, mode) && q.inFlight == 1 && q.driver == Trace3(mode).driver
  {
  }

  /** The ordinary request, of the wrong colour now, is requeued behind a stage. */
  lemma RequeueTrace(q: Queue, mode: Mode)
    requires Overtaking(q, mode) && ORDINARY.(started := true) in q.driver && q.inFlight == 1
    ensures Overtaking(Requeue(q, ORDINARY.(started := true)), mode)
    ensures Requeue(q, ORDINARY.(started := true)).inFlight == 0
  {
    var r := ORDINARY.(started := true);
    var q1 := q.(driver := q.driver - {r}, inFlight := 0);
    var p := RequeuePos(q1, DONE, 0);
    assert p > 0;
    assert Requeue(q, r).head == InsertAt(q.head, p, ORDINARY.(soft := true));
  }

  lemma ReachOvertaking(mode: Mode) returns (run: seq<Op>)
    requires ValidMode(mode) && mode.byDrain
    ensures IsRun(Init(mode), run) && Overtaking(After(Init(mode), run), mode) && After(Init(mode), run).inFlight == 0
  {
    var q := Init(mode);
    run := ReachTrace3(mode);
    RunThen(q, run, DriverNext(true));
    StartTrace(mode);
    run := run + [DriverNext(true)];
    RequeueTrace(After(q, run), mode);
    RunThen(q, run, DriverRequeue(ORDINARY.(started := true)));
    run := run + [DriverRequeue(ORDINARY.(started := true))];
  }

  /** The special request completes, the drain is taken for complete, and the
      first stage goes out although the ordinary request has not completed. */
  lemma StageOvertakes(mode: Mode) returns (run: seq<Op>)
    requires ValidMode(mode) && mode.byDrain
    ensures IsRun(Init(mode), run) && !BarrierHolds(After(Init(mode), run))
  {
    var q := Init(mode);
    var s := HARD_SPECIAL.(started := true);
    run := ReachOvertaking(mode);
    var q2 := After(q, run);
    RunThen(q, run, DriverComplete(s, 0));
    run := run + [DriverComplete(s, 0)];
    var q3 := Apply(q2, DriverComplete(s, 0));
    assert q3.head == q2.head && q3.done == {1} && CurSeq(q3.ordseq) == StageBit(FirstStage(mode));
    RunThen(q, run, DriverNext(true));
    run := run + [DriverNext(true)];
    var q4 := Apply(q3, DriverNext(true));
    assert FirstStage(mode).(started := true) in q4.driver && q4.done == {1} && q4.log[0].kind == Fs;
  }

  /** Which operations a caller allows: with `hardSpecials`, non-fs requests may
      carry REQ_HARDBARRIER, as drivers/block/pktcdvd.c:783 lets them. */
  predicate Allowed(hardSpecials: bool, op: Op) { hardSpecials || FsBarriersOnly(op) }

  /** A drained barrier is safe in all runs iff only fs requests are hard. */
  lemma DrainSafetyIff(mode: Mode, hardSpecials: bool)
    requires ValidMode(mode) && mode.byDrain
    ensures (forall run :: IsRun(Init(mode), run) && (forall i :: 0 <= i < |run| ==> Allowed(hardSpecials, run[i]))
                           ==> BarrierHolds(After(Init(mode), run)))
            <==> !hardSpecials
  {
    if hardSpecials {
      var run := StageOvertakes(mode);
    } else {
      forall run | IsRun(Init(mode), run) && forall i :: 0 <= i < |run| ==> Allowed(hardSpecials, run[i])
        ensures BarrierHolds(After(Init(mode), run))
      {
        assert forall i :: 0 <= i < |run| ==> Allowed(hardSpecials, run[i]) && FsBarriersOnly(run[i]);
        DrainSafety(mode, run);
      }
    }
  }
}
