/** Forced dispatch of block/as-iosched.c follows next_rq.  It empties the scheduler exactly
    if next_rq is set in each direction that has requests, which every run keeps so unless
    a front merge dispatches an alias. */
module AsForced {
  import opened Wrappers
  import opened AsWakeup

  predicate LaneNext(l: Lane) { l.tree != {} ==> l.next.Some? }

  /** next_rq is set in each direction that has requests. */
  predicate NextSet(s: As) { LaneNext(s.sync) && LaneNext(s.async) }

  lemma MoveNextSet(s: As, r: Rq, pick: Option<Rq>)
    requires NextSet(s) && r in LaneOf(s, r.sync).tree && Pickable(LaneOf(s, r.sync), {r}, pick)
    ensures NextSet(MoveToDispatch(s, r, pick)) && NextSet(AnticStop(MoveToDispatch(s, r, pick)))
  {
  }

  lemma FinishNextSet(s: As, rq: Rq, c: Choices)
    requires NextSet(s) && rq in LaneOf(s, rq.sync).tree && FindOk(s, c)
    ensures NextSet(FinishDispatch(s, rq, c).s)
  {
    var s1 := if s.changedBatch then s.(changedBatch := false, newBatch := s.newBatch || s.batchSync) else s;
    MoveLaneNext(s, s1, rq, c);
  }

  lemma MoveLaneNext(s: As, s1: As, rq: Rq, c: Choices)
    requires NextSet(s) && rq in LaneOf(s, rq.sync).tree && FindOk(s, c) && s1.sync == s.sync && s1.async == s.async
    ensures NextSet(MoveToDispatch(s1, rq, c.find(rq)))
  {
    MoveNextSet(s1, rq, c.find(rq));
  }

  lemma RequestNextSet(s: As, rq: Rq, c: Choices)
    requires NextSet(s) && LaneOk(s.sync, true) && LaneOk(s.async, false)
    requires rq in LaneOf(s, rq.sync).tree && FindOk(s, c)
    ensures NextSet(DispatchRequest(s, rq, c).s)
  {
    var l := LaneOf(s, s.batchSync);
    assert l.fifo != [] ==> l.fifo[0] in l.fifo;
    FinishNextSet(s, if c.expired && l.fifo != [] then l.fifo[0] else rq, c);
  }

  lemma NewBatchNextSet(s: As, c: Choices)
    requires NextSet(s) && LaneOk(s.sync, true) && LaneOk(s.async, false) && Queued(s) && FindOk(s, c)
    ensures NextSet(NewBatch(s, c).s)
  {
    if s.sync.fifo != [] && !(s.async.fifo != [] && s.batchSync) {
      assert s.sync.fifo[0] in s.sync.fifo;
      RequestNextSet(s.(changedBatch := s.changedBatch || !s.batchSync, batchSync := true), s.sync.fifo[0], c);
    } else {
      assert s.async.fifo[0] in s.async.fifo;
      RequestNextSet(s.(changedBatch := s.changedBatch || s.batchSync, newBatch := s.newBatch && !s.batchSync,
                        batchSync := false), s.async.fifo[0], c);
    }
  }

  lemma DispatchNextSet(s: As, c: Choices)
    requires NextSet(s) && LaneOk(s.sync, true) && LaneOk(s.async, false) && FindOk(s, c)
    ensures NextSet(Dispatch(s, c).s)
  {
    if Queued(s) && !Waiting(s) && !s.changedBatch {
      var rq := LaneOf(s, s.batchSync).next;
      if s.sync.fifo != [] && s.async.fifo != [] && c.batchExpired && !s.newBatch {
        NewBatchNextSet(s, c);
      } else if s.batchSync && c.anticExpire && c.syncExpired && s.sync.fifo != [] {
        assert s.sync.fifo[0] in s.sync.fifo;
        FinishNextSet(s, s.sync.fifo[0], c);
      } else if s.batchSync && c.anticExpire && CanAnticipate(s, rq, c) {
        assert NextSet(WaitReqStep(s));
      } else if rq.Some? {
        RequestNextSet(s, rq.value, c);
      } else {
        NewBatchNextSet(s, c);
      }
    }
  }

  lemma EnqueuedNextSet(s: As, r: Rq, better: bool)
    requires NextSet(s)
    ensures NextSet(Enqueued(s, r, better)) && NextSet(AnticStop(Enqueued(s, r, better)))
  {
  }

  lemma AddNextSet(s: As, r: Rq, alias: Option<Rq>, better: bool, c: Choices)
    requires NextSet(s) && Valid(s) && Enabled(s, AddRequest(r, alias, better, c))
    ensures NextSet(Add(s, r, alias, better, c))
  {
    var s1 := s;
    if alias.Some? {
      MoveNextSet(s, alias.value, c.find(alias.value));
      s1 := AnticStop(MoveToDispatch(s, alias.value, c.find(alias.value)));
    }
    EnqueuedNextSet(s1, r, better);
  }

  /** A front merge that dispatches an alias. */
  predicate AliasingMerge(op: Op) { op.MergeFront? && op.alias.Some? }

  lemma StepNextSet(s: As, op: Op)
    requires NextSet(s) && Valid(s) && Enabled(s, op) && !AliasingMerge(op)
    ensures NextSet(Apply(s, op))
  {
    match op
    case AddRequest(r, alias, better, c) => AddNextSet(s, r, alias, better, c);
    case DispatchOne(c) => DispatchNextSet(s, c);
    case CompleteRequest(r) => CompletedLanes(s, r);
    case TimerFires =>
    case MergeFront(r, alias, pick) => PutBack(s, r);
    case MergeRequests(r, gone, fifo, pick) =>
    case ForceReset =>
    case ForceMove(dir, pick) => MoveNextSet(s, LaneOf(s, dir).next.value, pick);
  }

  /** Without aliasing front merges next_rq is set whenever there are requests. */
  lemma {:induction false} RunNextSet(s: As, run: seq<Op>, s': As)
    requires NextSet(s) && Valid(s) && Reaches(s, run, s') && forall i :: 0 <= i < |run| ==> !AliasingMerge(run[i])
    ensures NextSet(s')
    decreases |run|
  {
    if run != [] {
      StepNextSet(s, run[0]);
      StepValid(s, run[0]);
      RunNextSet(Apply(s, run[0]), run[1..], s');
    }
  }

  // --------------------------------------------------------------- the input that fails

  const FIRST := Rq(1, true, 1)
  const SECOND := Rq(2, true, 1)
  const NOTHING := Choices(false, false, false, false, false, _ => None)

  /** The states of the run: one request, two, and the second at the first one's sector. */
  const ONE := As(Lane([FIRST], {FIRST}, Some(FIRST)), EMPTY_LANE, Off, false, false, None, false, 0, false, false,
                  true, {})
  const TWO := As(Lane([FIRST, SECOND], {FIRST, SECOND}, Some(FIRST)), EMPTY_LANE, Off, false, false, None, false, 0,
                  false, false, true, {})

  lemma FirstAdded()
    ensures Enabled(Init(), AddRequest(FIRST, None, false, NOTHING))
    ensures Add(Init(), FIRST, None, false, NOTHING) == ONE
  {
    assert {} + {FIRST} == {FIRST};
  }

  lemma SecondAdded()
    ensures Enabled(ONE, AddRequest(SECOND, None, false, NOTHING))
    ensures Add(ONE, SECOND, None, false, NOTHING) == TWO
  {
    assert {FIRST} + {SECOND} == {FIRST, SECOND} && [FIRST] + [SECOND] == [FIRST, SECOND];
  }

  lemma FrontMergeEmptiesNext()
    ensures Enabled(TWO, MergeFront(SECOND, Some(FIRST), None))
    ensures var s := FrontMerged(TWO, SECOND, Some(FIRST), None); s.sync.next.None? && s.sync.tree == {SECOND}
  {
    assert {FIRST, SECOND} - {FIRST, SECOND} == {} && {FIRST, SECOND} - {FIRST} == {SECOND};
    assert {SECOND} - {SECOND} + {SECOND} == {SECOND};
  }

  lemma Prepend(s: As, op: Op, s1: As, run: seq<Op>, s': As)
    requires Valid(s) && Enabled(s, op) && s1 == Apply(s, op) && Valid(s1) && Reaches(s1, run, s')
    ensures Reaches(s, [op] + run, s')
  {
    assert ([op] + run)[1..] == run;
  }

  lemma FrontMergeReached() returns (run: seq<Op>, s: As)
    ensures Valid(TWO) && Reaches(TWO, run, s) && s.sync.next.None? && s.sync.tree == {SECOND}
  {
    FirstAdded();
    SecondAdded();
    FrontMergeEmptiesNext();
    StepValid(Init(), AddRequest(FIRST, None, false, NOTHING));
    StepValid(ONE, AddRequest(SECOND, None, false, NOTHING));
    StepValid(TWO, MergeFront(SECOND, Some(FIRST), None));
    s := FrontMerged(TWO, SECOND, Some(FIRST), None);
    run := [MergeFront(SECOND, Some(FIRST), None)] + [];
    Prepend(TWO, MergeFront(SECOND, Some(FIRST), None), s, [], s);
  }

  /** After an aliasing front merge a request is queued and next_rq is not set. */
  lemma AliasingMergeLosesNext() returns (run: seq<Op>, s: As)
    ensures Reachable(run, s) && s.sync.tree != {} && !NextSet(s)
  {
    run, s := FrontMergeReached();
    FirstAdded();
    SecondAdded();
    StepValid(Init(), AddRequest(FIRST, None, false, NOTHING));
    Prepend(ONE, AddRequest(SECOND, None, false, NOTHING), TWO, run, s);
    run := [AddRequest(SECOND, None, false, NOTHING)] + run;
    Prepend(Init(), AddRequest(FIRST, None, false, NOTHING), ONE, run, s);
    run := [AddRequest(FIRST, None, false, NOTHING)] + run;
    assert s.sync.tree == {SECOND} && SECOND in s.sync.tree;
  }
}
