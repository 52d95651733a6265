/** Exactness of the barrier sequence, for every mode blk_queue_ordered accepts
    and every completion order: which bits of `ordseq` are set, that no bit is
    set twice, and that each original barrier ends once with the first error. */
module BarrierStages {
  import opened Wrappers
  import opened BarrierModel

  /** Stage requests exist once; everything else is identified by its ticket. */
  function Key(r: Request): int {
    if IsStage(r) then -(StageBit(r) as int) else r.ticket
  }

  ghost function Keys(s: seq<Request>): set<int> { set r | r in s :: Key(r) }

  ghost function SetKeys(s: set<Request>): set<int> { set r | r in s :: Key(r) }

  ghost predicate DistinctKeys(s: seq<Request>) {
    forall i, j :: 0 <= i < j < |s| ==> Key(s[i]) != Key(s[j])
  }

  ghost predicate InjectiveKeys(s: set<Request>) {
    forall r, r' :: r in s && r' in s && Key(r) == Key(r') ==> r == r'
  }

  /** No request is in two places. */
  ghost predicate Unique(q: Queue) {
    && DistinctKeys(q.head) && InjectiveKeys(q.sorted) && InjectiveKeys(q.driver)
    && Keys(q.head) !! SetKeys(q.sorted) && Keys(q.head) !! SetKeys(q.driver)
    && SetKeys(q.sorted) !! SetKeys(q.driver)
    && forall k :: k in SetKeys(q.sorted) ==> 0 <= k
  }

  ghost function EndedTickets(ended: seq<(nat, int)>): set<int> {
    set i | 0 <= i < |ended| :: ended[i].0 as int
  }

  ghost predicate EndedOnce(ended: seq<(nat, int)>) {
    forall i, j :: 0 <= i < j < |ended| ==> ended[i].0 != ended[j].0
  }

  ghost predicate AllBelow(keys: set<int>, n: int) { forall k :: k in keys ==> k < n }

  /** Tickets are given out by arrival, and nothing that has ended is still live. */
  ghost predicate Tickets(q: Queue) {
    && AllBelow(Keys(q.head), |q.log|) && AllBelow(SetKeys(q.sorted), |q.log|) && AllBelow(SetKeys(q.driver), |q.log|)
    && AllBelow(EndedTickets(q.ended), |q.log|)
    && Keys(q.head) !! EndedTickets(q.ended) && SetKeys(q.sorted) !! EndedTickets(q.ended)
    && SetKeys(q.driver) !! EndedTickets(q.ended)
    && EndedOnce(q.ended)
    && (q.ordseq != {} && q.orig.Some? ==>
          && q.orig.value.ticket < |q.log|
          && (q.orig.value.ticket as int) !in Keys(q.head)
          && (q.orig.value.ticket as int) !in SetKeys(q.sorted)
          && (q.orig.value.ticket as int) !in SetKeys(q.driver)
          && (q.orig.value.ticket as int) !in EndedTickets(q.ended))
  }

  /** A stage request is waiting in the queue or with the driver. */
  ghost predicate Pending(q: Queue, bit: nat) {
    -(bit as int) in Keys(q.head) || -(bit as int) in SetKeys(q.driver)
  }

  /** A stage bit is clear exactly while its request is pending: the set bits are
      STARTED, the skipped stages and the finished ones. */
  ghost predicate Stages(q: Queue) {
    && (q.ordseq == {} ==> forall bit :: PREFLUSH <= bit <= POSTFLUSH ==> !Pending(q, bit))
    && (q.ordseq != {} ==>
          && q.orig.Some?
          && STARTED in q.ordseq
          && (forall b :: b in q.ordseq ==> b < DONE)
          && CurSeq(q.ordseq) != DONE
          && (forall bit :: PREFLUSH <= bit <= POSTFLUSH ==> (bit !in q.ordseq <==> Pending(q, bit)))
          && LeftOut(q.ordered) <= q.ordseq)
  }

  /** The stages a mode does not have. */
  function LeftOut(m: Mode): set<nat> {
    (if m.doPreflush then {} else {PREFLUSH}) + (if m.doBar then {} else {BAR})
    + (if m.doPostflush then {} else {POSTFLUSH})
  }

  /** Every barrier taken off the queue has ended, except the one in progress. */
  ghost predicate TakenEnd(q: Queue) {
    q.taken == |q.ended| + if q.ordseq == {} then 0 else 1
  }

  /** The first error that is not zero, zero if there is none. */
  function FirstError(errs: seq<int>): int {
    if errs == [] then 0
    else
      var before := FirstError(errs[..|errs| - 1]);
      if before != 0 then before else errs[|errs| - 1]
  }

  ghost predicate Errors(q: Queue) {
    q.ordseq != {} ==> q.orderr == FirstError(q.errs)
  }

  ghost predicate StageInv(q: Queue) {
    && ValidMode(q.nextOrdered) && (q.nextOrdered == ORDERED_NONE ==> q.ordseq == {})
    && Unique(q) && Tickets(q) && Stages(q) && Errors(q) && TakenEnd(q)
  }

  /** The error of a sequence in which `before` was the first so far. */
  function FirstOf(before: int, error: int): int { if before != 0 then before else error }

  /** No stage request is left. */
  ghost predicate NonePending(q: Queue) {
    forall bit :: PREFLUSH <= bit <= POSTFLUSH ==> !Pending(q, bit)
  }

  /** A step during a sequence, with the error it reports: the original request ends
      exactly if the sequence does, which leaves no stage, with the first error. */
  ghost predicate Proceeds(q: Queue, q': Queue, error: int)
    requires q.orig.Some?
  {
    && q'.orig == q.orig && q'.ordered == q.ordered && q'.taken == q.taken
    && FirstError(q'.errs) == FirstOf(FirstError(q.errs), error)
    && (if q'.ordseq == {} then NonePending(q') else q.ordseq <= q'.ordseq)
    && q'.ended == if q'.ordseq == {} then q.ended + [(q.orig.value.ticket, FirstError(q'.errs))] else q.ended
  }

  /** The barrier at the head is taken: refused, ended at once because there is nothing
      to wait for, or the original of a sequence with the bits of what it leaves out. */
  ghost predicate Begins(q: Queue, q': Queue)
    requires q.head != []
  {
    var b := q.head[0];
    && q'.taken == q.taken + 1
    && if q.nextOrdered == ORDERED_NONE then
         q'.ordseq == {} && q'.ended == q.ended + [(b.ticket, EOPNOTSUPP)]
       else
         var mode := StartMode(q.nextOrdered, b.empty);
         && q'.orig == Some(b) && q'.ordered == mode && FirstError(q'.errs) == 0
         && if AnyStage(mode) || MustDrain(q) then
              && q'.ended == q.ended
              && q'.ordseq == {STARTED} + LeftOut(mode) + if MustDrain(q) then {} else {DRAIN}
            else
              q'.ordseq == {} && q'.ended == q.ended + [(b.ticket, 0)]
  }

  /** The driver asks for the head, which is a barrier, and no sequence is running. */
  predicate TakesBarrier(q: Queue, op: Op)
    requires Enabled(q, op)
  {
    op.DriverNext? && q.ordseq == {} && FsRequest(q.head[0]) && q.head[0].hard
  }

  /** The error an operation reports to the sequence. */
  function Reports(op: Op): int {
    match op
    case DriverComplete(r, error) => if IsStage(r) then error else 0
    case ProxyError(error) => error
    case _ => 0
  }

  /** What an operation does to the original requests of barriers. */
  ghost predicate EndsExactly(q: Queue, op: Op)
    requires Enabled(q, op) && (q.ordseq != {} ==> q.orig.Some?)
  {
    var q' := Apply(q, op);
    if q.ordseq != {} then Proceeds(q, q', Reports(op))
    else if TakesBarrier(q, op) then Begins(q, q')
    else q'.ended == q.ended && q'.ordseq == {} && q'.taken == q.taken
  }

  // ------------------------------------------------------- keys of sequences

  lemma InsertMembers(s: seq<Request>, p: nat, r: Request)
    requires p <= |s|
    ensures forall x :: x in InsertAt(s, p, r) <==> x == r || x in s
  {
    assert s == s[..p] + s[p..];
  }

  lemma InsertKeys(s: seq<Request>, p: nat, r: Request)
    requires p <= |s|
    ensures Keys(InsertAt(s, p, r)) == Keys(s) + {Key(r)}
    ensures DistinctKeys(s) && Key(r) !in Keys(s) ==> DistinctKeys(InsertAt(s, p, r))
  {
    InsertMembers(s, p, r);
    if DistinctKeys(s) && Key(r) !in Keys(s) {
      var t := InsertAt(s, p, r);
      forall i, j | 0 <= i < j < |t| ensures Key(t[i]) != Key(t[j]) {
        if i == p { assert t[j] == s[j - 1]; }
        else if j == p { assert t[i] == s[i]; }
        else { assert t[i] == s[if i < p then i else i - 1] && t[j] == s[if j < p then j else j - 1]; }
      }
    }
  }

  lemma PopKeys(s: seq<Request>)
    requires s != [] && DistinctKeys(s)
    ensures Keys(s[1..]) == Keys(s) - {Key(s[0])} && DistinctKeys(s[1..])
    ensures Key(s[0]) in Keys(s)
  {
    assert InsertAt(s[1..], 0, s[0]) == s;
    InsertMembers(s[1..], 0, s[0]);
    assert forall x :: x in s[1..] ==> Key(x) != Key(s[0]);
  }

  lemma DropKey(s: set<Request>, r: Request)
    requires r in s && InjectiveKeys(s)
    ensures SetKeys(s - {r}) == SetKeys(s) - {Key(r)} && InjectiveKeys(s - {r})
  {
    forall k | k in SetKeys(s) - {Key(r)} ensures k in SetKeys(s - {r}) {
      var x :| x in s && Key(x) == k;
      assert x in s - {r};
    }
  }

  lemma AddKey(s: set<Request>, r: Request)
    requires InjectiveKeys(s) && Key(r) !in SetKeys(s)
    ensures SetKeys(s + {r}) == SetKeys(s) + {Key(r)} && InjectiveKeys(s + {r})
  {
    forall x | x in s + {r} ensures Key(x) in SetKeys(s) + {Key(r)} {}
    forall k | k in SetKeys(s) + {Key(r)} ensures k in SetKeys(s + {r}) {
      if k == Key(r) { assert r in s + {r}; } else {
        var x :| x in s && Key(x) == k;
        assert x in s + {r};
      }
    }
  }

  // ------------------------------------------------------ moving one request

  /** All history and barrier state is the same; only places differ. */
  ghost predicate SameBarrier(q: Queue, q': Queue) {
    && q'.ordseq == q.ordseq && q'.orig == q.orig && q'.ended == q.ended && q'.log == q.log
    && q'.orderr == q.orderr && q'.errs == q.errs && q'.nextOrdered == q.nextOrdered
    && q'.ordered == q.ordered && q'.taken == q.taken
  }

  /** Moving keys between places keeps the invariant. */
  lemma SameKeys(q: Queue, q': Queue)
    requires StageInv(q) && SameBarrier(q, q') && Unique(q')
    requires Keys(q'.head) + SetKeys(q'.sorted) + SetKeys(q'.driver)
             == Keys(q.head) + SetKeys(q.sorted) + SetKeys(q.driver)
    requires forall bit :: PREFLUSH <= bit <= POSTFLUSH ==> (Pending(q, bit) <==> Pending(q', bit))
    ensures StageInv(q')
  {
    var before := Keys(q.head) + SetKeys(q.sorted) + SetKeys(q.driver);
    var after := Keys(q'.head) + SetKeys(q'.sorted) + SetKeys(q'.driver);
    assert AllBelow(before, |q.log|) && before !! EndedTickets(q.ended);
    assert AllBelow(after, |q.log|) && after !! EndedTickets(q.ended);
    assert Keys(q'.head) <= after && SetKeys(q'.sorted) <= after && SetKeys(q'.driver) <= after;
  }

  lemma DispatchStages(q: Queue, r: Request, p: nat)
    requires StageInv(q) && Enabled(q, Dispatch(r, p))
    ensures StageInv(Apply(q, Dispatch(r, p)))
  {
    assert Key(r) in SetKeys(q.sorted);
    InsertKeys(q.head, p, r);
    DropKey(q.sorted, r);
    SameKeys(q, Apply(q, Dispatch(r, p)));
  }

  lemma MoveToHead(q: Queue, q': Queue, r: Request, r': Request, p: nat)
    requires StageInv(q) && SameBarrier(q, q') && r in q.driver && Key(r') == Key(r) && p <= |q.head|
    requires q'.driver == q.driver - {r} && q'.sorted == q.sorted && q'.head == InsertAt(q.head, p, r')
    ensures StageInv(q')
  {
    assert Key(r) in SetKeys(q.driver);
    InsertKeys(q.head, p, r');
    DropKey(q.driver, r);
    SameKeys(q, q');
  }

  lemma RequeueStages(q: Queue, r: Request)
    requires StageInv(q) && r in q.driver
    ensures StageInv(Requeue(q, r)) && Requeue(q, r).ended == q.ended
  {
    var r1 := r.(started := false, soft := true);
    var q1 := q.(driver := q.driver - {r}, inFlight := q.inFlight - if Accounted(r) then 1 else 0);
    MoveToHead(q, Requeue(q, r), r, r1, if q.ordseq == {} then 0 else RequeuePos(q1, ReqSeq(q1, r1), 0));
  }

  /** The state after an arrival differs only where the new request went. */
  ghost predicate ArrivalOf(q: Queue, q': Queue, r: Request) {
    && r.ticket == |q.log| && !IsStage(r) && q'.log == q.log + [r] && q'.driver == q.driver
    && q'.ordseq == q.ordseq && q'.orig == q.orig && q'.ended == q.ended
    && q'.orderr == q.orderr && q'.errs == q.errs && q'.nextOrdered == q.nextOrdered
    && q'.ordered == q.ordered && q'.taken == q.taken
  }

  lemma SortedArrival(q: Queue, q': Queue, r: Request)
    requires StageInv(q) && ArrivalOf(q, q', r) && q'.head == q.head && q'.sorted == q.sorted + {r}
    ensures StageInv(q')
  {
    AddKey(q.sorted, r);
    assert forall bit: nat :: Pending(q, bit) <==> Pending(q', bit);
  }

  lemma QueuedArrival(q: Queue, q': Queue, r: Request, p: nat)
    requires StageInv(q) && ArrivalOf(q, q', r) && p <= |q.head|
    requires q'.head == InsertAt(q.head, p, r) && q'.sorted == q.sorted
    ensures StageInv(q')
  {
    InsertKeys(q.head, p, r);
    assert forall bit :: PREFLUSH <= bit <= POSTFLUSH ==> (Pending(q, bit) <==> Pending(q', bit));
  }

  lemma ArrivalStages(q: Queue, op: Op)
    requires StageInv(q) && Enabled(q, op) && (op.AddSorted? || op.AddBack? || op.AddFront?)
    ensures StageInv(Apply(q, op))
  {
    var q' := Apply(q, op);
    var r := q'.log[|q.log|];
    if op.AddSorted? {
      SortedArrival(q, q', r);
    } else {
      var p := if op.AddFront? then 0 else |q.head|;
      assert q'.head == InsertAt(q.head, p, r);
      QueuedArrival(q, q', r, p);
    }
  }

  // ----------------------------------------------------- completing some bits

  /** The state in which blk_ordered_complete_seq is called: the stages in `bits`
      are no longer pending, their bits are still clear. */
  ghost predicate Completing(q: Queue, bits: set<nat>) {
    && ValidMode(q.nextOrdered) && q.nextOrdered != ORDERED_NONE
    && Unique(q) && Tickets(q) && Errors(q)
    && q.orig.Some? && STARTED in q.ordseq
    && (forall b :: b in q.ordseq + bits ==> b < DONE)
    && (forall bit :: PREFLUSH <= bit <= POSTFLUSH ==> (bit !in q.ordseq + bits <==> Pending(q, bit)))
    && LeftOut(q.ordered) <= q.ordseq + bits && q.taken == |q.ended| + 1
  }

  lemma EndOnce(ended: seq<(nat, int)>, t: nat, error: int)
    requires EndedOnce(ended) && (t as int) !in EndedTickets(ended)
    ensures EndedOnce(ended + [(t, error)])
    ensures EndedTickets(ended + [(t, error)]) == EndedTickets(ended) + {t as int}
  {
    var ended' := ended + [(t, error)];
    assert forall i :: 0 <= i < |ended| ==> ended'[i] == ended[i] && (ended[i].0 as int) in EndedTickets(ended);
    assert ended'[|ended|].0 == t;
  }

  lemma CompleteBits(q: Queue, bits: set<nat>, error: int)
    requires Completing(q, bits)
    ensures StageInv(CompleteSeq(q, bits, error)) && Proceeds(q, CompleteSeq(q, bits, error), error)
    ensures CompleteSeq(q, bits, error).ordseq == if CurSeq(q.ordseq + bits) == DONE then {} else q.ordseq + bits
  {
    var q' := CompleteSeq(q, bits, error);
    assert q'.errs[..|q'.errs| - 1] == q.errs;
    assert forall bit :: Pending(q, bit) <==> Pending(q', bit);
    if CurSeq(q.ordseq + bits) == DONE {
      EndOnce(q.ended, q.orig.value.ticket, q'.orderr);
    }
  }

  /** Completing some of the bits leaves the others to be completed. */
  lemma CompletingRest(q: Queue, bits: set<nat>, rest: set<nat>, error: int)
    requires Completing(q, bits + rest) && CurSeq(q.ordseq + bits) != DONE
    ensures Completing(CompleteSeq(q, bits, error), rest)
    ensures Proceeds(q, CompleteSeq(q, bits, error), error) && CompleteSeq(q, bits, error).ordseq == q.ordseq + bits
  {
    var q' := CompleteSeq(q, bits, error);
    assert q'.errs[..|q'.errs| - 1] == q.errs;
    assert q'.ordseq + rest == q.ordseq + (bits + rest);
    assert forall bit :: Pending(q, bit) <==> Pending(q', bit);
  }

  lemma ReturnedKeys(q: Queue, r: Request)
    requires StageInv(q) && r in q.driver
    ensures Unique(Returned(q, r)) && Tickets(Returned(q, r)) && Errors(Returned(q, r))
    ensures forall bit :: PREFLUSH <= bit <= POSTFLUSH ==>
              (Pending(Returned(q, r), bit) <==> Pending(q, bit) && Key(r) != -(bit as int))
    ensures IsStage(r) ==> Pending(q, StageBit(r))
  {
    assert Key(r) in SetKeys(q.driver);
    DropKey(q.driver, r);
  }

  lemma CompleteStage(q: Queue, r: Request, error: int)
    requires StageInv(q) && r in q.driver && IsStage(r)
    ensures StageInv(Complete(q, r, error))
    ensures q.ordseq != {} && StageBit(r) !in q.ordseq && Proceeds(q, Complete(q, r, error), error)
    ensures Complete(q, r, error).ordseq != {} ==> StageBit(r) in Complete(q, r, error).ordseq
  {
    var q1 := Returned(q, r);
    var bit := StageBit(r);
    StageReturned(q, r);
    DrainThen(q1, bit);
    CompleteBits(DrainCheck(q1), {bit}, error);
    ProceedsOn(q, q1, DrainCheck(q1), Complete(q, r, error), error);
  }

  /** The stage's request has left the driver and its bit is still clear. */
  lemma StageReturned(q: Queue, r: Request)
    requires StageInv(q) && r in q.driver && IsStage(r)
    ensures Completing(Returned(q, r), {StageBit(r)}) && q.ordseq != {} && StageBit(r) !in q.ordseq
  {
    ReturnedKeys(q, r);
  }

  lemma DrainThen(q: Queue, bit: nat)
    requires Completing(q, {bit}) && PREFLUSH <= bit && bit !in q.ordseq
    ensures Completing(DrainCheck(q), {bit}) && Proceeds(q, DrainCheck(q), 0) && q.ordseq <= DrainCheck(q).ordseq
    ensures bit !in DrainCheck(q).ordseq
  {
    if DrainCheck(q) == CompleteSeq(q, {DRAIN}, 0) {
      CompletingRest(q, {DRAIN}, {bit}, 0);
    }
  }

  /** The steps of one completion add up. */
  lemma ProceedsOn(q: Queue, q1: Queue, q2: Queue, q': Queue, error: int)
    requires q.orig.Some? && q.ordseq != {} && q1.orig == q.orig && q1.ordered == q.ordered && q1.taken == q.taken
    requires q1.errs == q.errs && q1.ended == q.ended && q1.ordseq == q.ordseq
    requires Proceeds(q1, q2, 0) && q2.ordseq != {} && q2.orig.Some? && Proceeds(q2, q', error)
    ensures Proceeds(q, q', error)
  {
  }

  lemma CompleteOrdinary(q: Queue, r: Request, error: int)
    requires StageInv(q) && r in q.driver && !IsStage(r)
    ensures StageInv(Complete(q, r, error))
    ensures q.ordseq != {} ==> Proceeds(q, Complete(q, r, error), 0)
    ensures q.ordseq == {} ==> Complete(q, r, error).ended == q.ended && Complete(q, r, error).ordseq == {}
    ensures Complete(q, r, error).taken == q.taken
  {
    var q1 := Returned(q, r);
    ReturnedKeys(q, r);
    assert StageInv(q1);
    if DrainCheck(q1) != q1 {
      CompleteBits(q1, {DRAIN}, 0);
    }
  }

  // --------------------------------------------------------- the driver's turn

  lemma Terminated(q: Queue)
    requires StageInv(q) && q.head != [] && q.ordseq == {} && q.nextOrdered == ORDERED_NONE
    requires q.head[0].kind == Fs && q.head[0].hard
    ensures StageInv(DoOrdered(q).q) && Begins(q, DoOrdered(q).q)
  {
    var q' := DoOrdered(q).q;
    PopKeys(q.head);
    EndOnce(q.ended, q.head[0].ticket, EOPNOTSUPP);
    assert forall bit: nat :: Pending(q', bit) ==> Pending(q, bit);
  }

  /** Pushing a stage request that is not pending makes exactly that one pending. */
  lemma PushStage(q: Queue, kind: Kind, epoch: nat)
    requires Unique(q) && Tickets(q) && IsStage(StageRequest(kind, epoch))
    requires !Pending(q, StageBit(StageRequest(kind, epoch)))
    ensures var q' := InsertFront(q, StageRequest(kind, epoch));
            && Unique(q') && Tickets(q')
            && forall bit: nat :: Pending(q', bit) <==> Pending(q, bit) || bit == StageBit(StageRequest(kind, epoch))
  {
    var r := StageRequest(kind, epoch);
    var q' := InsertFront(q, r);
    assert q'.head == InsertAt(q.head, 0, r);
    InsertKeys(q.head, 0, r);
  }

  lemma PushStages(q: Queue, epoch: nat)
    requires Unique(q) && Tickets(q)
    requires forall bit :: PREFLUSH <= bit <= POSTFLUSH ==> !Pending(q, bit)
    ensures var q' := QueueStages(q, epoch);
            && Unique(q') && Tickets(q')
            && (Pending(q', PREFLUSH) <==> q.ordered.doPreflush)
            && (Pending(q', BAR) <==> q.ordered.doBar)
            && (Pending(q', POSTFLUSH) <==> q.ordered.doPostflush)
  {
    var q1 := if q.ordered.doPostflush then InsertFront(q, StageRequest(PostFlushRq, epoch)) else q;
    if q.ordered.doPostflush { PushStage(q, PostFlushRq, epoch); }
    var q2 := if q.ordered.doBar then InsertFront(q1, StageRequest(BarRq, epoch)) else q1;
    if q.ordered.doBar { PushStage(q1, BarRq, epoch); }
    if q.ordered.doPreflush { PushStage(q2, PreFlushRq, epoch); }
  }

  lemma StashOriginal(q: Queue)
    requires StageInv(q) && q.head != [] && q.ordseq == {} && q.head[0].kind == Fs
    ensures Unique(Stashed(q)) && Tickets(Stashed(q))
    ensures forall bit :: PREFLUSH <= bit <= POSTFLUSH ==> !Pending(Stashed(q), bit)
  {
    PopKeys(q.head);
    assert forall bit: nat :: Pending(Stashed(q), bit) ==> Pending(q, bit);
  }

  /** The state in which start_ordered completes the skipped stages. */
  lemma StartCompletes(q: Queue)
    requires StageInv(q) && q.head != [] && q.ordseq == {} && q.head[0].kind == Fs
    requires q.nextOrdered != ORDERED_NONE
    ensures Completing(QueueStages(Stashed(q), q.head[0].epoch), StartSkip(q))
  {
    StashOriginal(q);
    PushStages(Stashed(q), q.head[0].epoch);
    PushesOnly(Stashed(q), q.head[0].epoch);
  }

  lemma SkipsAll(q: Queue)
    requires q.head != []
    ensures var mode := StartMode(q.nextOrdered, q.head[0].empty);
            && {STARTED} + StartSkip(q) == {STARTED} + LeftOut(mode) + (if MustDrain(q) then {} else {DRAIN})
            && (CurSeq({STARTED} + StartSkip(q)) == DONE <==> !AnyStage(mode) && !MustDrain(q))
  {
  }

  lemma StartStages(q: Queue)
    requires StageInv(q) && q.head != [] && q.ordseq == {} && q.head[0].kind == Fs
    requires q.nextOrdered != ORDERED_NONE
    ensures StageInv(StartOrdered(q).q) && Begins(q, StartOrdered(q).q)
  {
    StartCompletes(q);
    PushesOnly(Stashed(q), q.head[0].epoch);
    SkipsAll(q);
    var q2 := QueueStages(Stashed(q), q.head[0].epoch);
    assert q2.ordseq == {STARTED};
    CompleteBits(q2, StartSkip(q), 0);
  }

  lemma DoOrderedStages(q: Queue)
    requires StageInv(q) && q.head != []
    ensures StageInv(DoOrdered(q).q)
    ensures if TakesBarrier(q, DriverNext(true)) then Begins(q, DoOrdered(q).q) else DoOrdered(q).q == q
  {
    var r := q.head[0];
    if q.ordseq == {} && FsRequest(r) && r.hard {
      assert Key(r) in Keys(q.head);
      assert !Pending(q, BAR);
      if q.nextOrdered != ORDERED_NONE { StartStages(q); } else { Terminated(q); }
    }
  }

  lemma TakeStages(q: Queue)
    requires StageInv(q) && q.head != []
    ensures var r := q.head[0].(started := true);
            forall n :: StageInv(q.(head := q.head[1..], driver := q.driver + {r}, inFlight := n))
  {
    var r := q.head[0].(started := true);
    PopKeys(q.head);
    AddKey(q.driver, r);
    forall n ensures StageInv(q.(head := q.head[1..], driver := q.driver + {r}, inFlight := n)) {
      SameKeys(q, q.(head := q.head[1..], driver := q.driver + {r}, inFlight := n));
    }
  }

  lemma PeekStages(q: Queue)
    requires StageInv(q) && q.head != []
    ensures StageInv(q.(head := [q.head[0].(started := true)] + q.head[1..]))
  {
    PeekKeys(q.head);
    SameKeys(q, q.(head := [q.head[0].(started := true)] + q.head[1..]));
  }

  lemma PeekKeys(s: seq<Request>)
    requires s != [] && DistinctKeys(s)
    ensures var t := [s[0].(started := true)] + s[1..]; Keys(t) == Keys(s) && DistinctKeys(t)
  {
    var r := s[0].(started := true);
    PopKeys(s);
    InsertKeys(s[1..], 0, r);
    assert InsertAt(s[1..], 0, r) == [r] + s[1..];
  }

  lemma NextStages(q: Queue, take: bool)
    requires StageInv(q) && q.head != []
    ensures StageInv(Next(q, take)) && EndsExactly(q, DriverNext(take))
  {
    DoOrderedStages(q);
    NextInv(q, take);
    NextMovesOnly(q, take);
    var q1, q' := DoOrdered(q).q, Next(q, take);
    if q.ordseq != {} { StillProceeds(q, q'); }
    if TakesBarrier(q, DriverNext(take)) { StillBegins(q, q1, q'); }
  }

  lemma NextInv(q: Queue, take: bool)
    requires q.head != [] && StageInv(DoOrdered(q).q)
    ensures StageInv(Next(q, take))
  {
    HandsOutHead(q);
    var o := DoOrdered(q);
    if o.rq.Some? {
      if take { TakeStages(o.q); } else { PeekStages(o.q); }
    }
  }

  /** Handing out the head moves it and does nothing else. */
  lemma NextMovesOnly(q: Queue, take: bool)
    requires q.head != []
    ensures var q', o := Next(q, take), DoOrdered(q).q;
            q' == o.(head := q'.head, driver := q'.driver, inFlight := q'.inFlight)
  {
  }

  lemma StillProceeds(q: Queue, q': Queue)
    requires q.ordseq != {} && q.orig.Some?
    requires q' == q.(head := q'.head, driver := q'.driver, inFlight := q'.inFlight)
    ensures Proceeds(q, q', 0)
  {
  }

  lemma StillBegins(q: Queue, q1: Queue, q': Queue)
    requires q.head != [] && Begins(q, q1)
    requires q' == q1.(head := q'.head, driver := q'.driver, inFlight := q'.inFlight)
    ensures Begins(q, q')
  {
  }

  // ------------------------------------------------------------- every run

  lemma StepStages(q: Queue, op: Op)
    requires StageInv(q) && Enabled(q, op)
    ensures StageInv(Apply(q, op)) && EndsExactly(q, op)
  {
    match op
    case AddSorted => ArrivalStages(q, op);
    case AddBack(_, _, _) => ArrivalStages(q, op);
    case AddFront(_) => ArrivalStages(q, op);
    case Dispatch(r, p) => DispatchStages(q, r, p);
    case DriverNext(take) => NextStages(q, take);
    case DriverComplete(r, error) =>
      if IsStage(r) { CompleteStage(q, r, error); } else { CompleteOrdinary(q, r, error); }
    case DriverRequeue(r) => RequeueStages(q, r);
    case ProxyError(error) => ProxyErrorStages(q, error);
  }

  lemma ProxyErrorStages(q: Queue, error: int)
    requires StageInv(q)
    ensures StageInv(BarError(q, error))
  {
    var q' := BarError(q, error);
    assert q'.errs[..|q'.errs| - 1] == q.errs;
    SameKeysErrs(q, q');
  }

  lemma SameKeysErrs(q: Queue, q': Queue)
    requires StageInv(q) && q' == q.(orderr := q'.orderr, errs := q'.errs) && Errors(q')
    ensures StageInv(q')
  {
    assert forall bit: nat :: Pending(q, bit) <==> Pending(q', bit);
  }

  lemma {:induction false} RunStages(q: Queue, run: seq<Op>)
    requires StageInv(q) && IsRun(q, run)
    ensures StageInv(After(q, run))
    decreases |run|
  {
    if run != [] {
      StepStages(q, run[0]);
      RunStages(Apply(q, run[0]), run[1..]);
    }
  }

  lemma InitStages(mode: Mode)
    requires ValidMode(mode)
    ensures StageInv(Init(mode))
  {
  }

  /** In every reachable state a stage bit is set iff its request is gone, so the set bits
      are STARTED, the stages the mode leaves out and the finished ones; every barrier
      taken off the queue has ended once, except the one in progress; and whatever
      operation comes next sets no bit twice and ends an original request exactly when
      the sequence is complete, with the first error reported. */
  lemma BarrierCompletionIsExact(mode: Mode, run: seq<Op>, op: Op)
    requires ValidMode(mode) && IsRun(Init(mode), run) && Enabled(After(Init(mode), run), op)
    ensures var q := After(Init(mode), run);
            && Stages(q) && EndedOnce(q.ended) && TakenEnd(q)
            && EndsExactly(q, op)
            && (op.DriverComplete? && IsStage(op.r) ==> q.ordseq != {} && StageBit(op.r) !in q.ordseq)
  {
    InitStages(mode);
    RunStages(Init(mode), run);
    var q := After(Init(mode), run);
    StepStages(q, op);
    if op.DriverComplete? && IsStage(op.r) {
      CompleteStage(q, op.r, op.error);
    }
  }
}
