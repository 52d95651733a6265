/** Ordering by draining: over every run, a stage request reaches the driver only
    after every fs request that arrived before the barrier has completed, and no
    fs request that arrived after it is issued until the sequence ends -- although
    the queue tells the two sides apart by one colour bit. */
module BarrierDrain {
  import opened Wrappers
  import opened BarrierModel
  import opened BarrierStages
  import opened BarrierHistory

  /** Position of a request in the order of arrival: ordinary requests of an
      epoch, then the stages that replace its barrier, then the barrier itself. */
  function Rank(r: Request): nat
    requires r.kind != Special
  {
    10 * r.epoch + if IsStage(r) then StageBit(r) else if r.hard then 9 else 0
  }

  predicate Active(q: Queue) { q.ordseq != {} && q.orig.Some? }

  /** The oldest epoch that can still have live requests. */
  function Base(q: Queue): int { if q.ordseq == {} then q.taken else q.taken - 1 }

  /** True of every request in the queue or with the driver. */
  predicate Elem(q: Queue, r: Request) {
    r.kind != Special ==>
      && 10 * Base(q) <= Rank(r) <= 10 * q.epoch
      && (r.kind == Fs ==> r.color == (r.epoch % 2 == 1))
      && (IsStage(r) ==> Active(q) && r.epoch == q.orig.value.epoch)
  }

  predicate HeadElem(q: Queue, r: Request) {
    && Elem(q, r)
    && (r.kind != Fs ==> r.soft)
    && (r.kind == Fs && r.hard ==> q.taken <= r.epoch && !r.started)
    && (r.kind == Fs && Active(q) && r.epoch == q.orig.value.epoch ==> r.soft && DRAIN !in q.ordseq)
  }

  predicate DriverElem(q: Queue, r: Request) {
    && Elem(q, r)
    && r.started
    && (r.kind == Fs ==> !r.hard && r.epoch == Base(q) && DRAIN !in q.ordseq)
    && (IsStage(r) ==> CurSeq(q.ordseq) == StageBit(r))
  }

  predicate SortedElem(q: Queue, r: Request) {
    r.kind == Fs && !Flagged(r) && r.epoch == q.epoch && r.color == q.ordcolor
  }

  ghost predicate HasBarrier(s: seq<Request>, epoch: nat) {
    exists i :: 0 <= i < |s| && s[i].kind == Fs && s[i].hard && s[i].epoch == epoch
  }

  predicate Ranked(a: Request, b: Request) {
    a.kind != Special && b.kind != Special ==>
      Rank(a) < Rank(b) || (Rank(a) == Rank(b) && a.kind == Fs && !a.hard)
  }

  ghost predicate HeadRanked(s: seq<Request>) {
    forall i, j :: 0 <= i < j < |s| ==> Ranked(s[i], s[j])
  }

  /** The sequence in progress is one ordered by draining. */
  predicate DrainMode(q: Queue) {
    && q.nextOrdered.byDrain && !q.nextOrdered.byTag
    && q.ordcolor == (q.epoch % 2 == 1)
    && q.taken <= q.epoch
    && (q.ordseq != {} ==>
          && Active(q) && !q.ordered.byTag
          && q.taken == q.orig.value.epoch + 1
          && q.orig.value.color == (q.orig.value.epoch % 2 == 1)
          && q.orig.value.kind == Fs && q.orig.value.hard)
  }

  ghost predicate Order(q: Queue) {
    && DrainMode(q)
    && (forall i :: 0 <= i < |q.head| ==> HeadElem(q, q.head[i]))
    && (forall r :: r in q.driver ==> DriverElem(q, r))
    && (forall r :: r in q.sorted ==> SortedElem(q, r))
    && HeadRanked(q.head)
    && (forall r, i :: r in q.driver && 0 <= i < |q.head| ==> Ranked(r, q.head[i]))
    && (forall k: nat :: q.taken <= k < q.epoch ==> HasBarrier(q.head, k))
  }

  /** Only fs requests carry REQ_HARDBARRIER into the queue. */
  predicate FsBarriersOnly(op: Op) {
    match op
    case AddBack(kind, hard, _) => hard ==> kind == Fs
    case AddFront(hard) => !hard
    case _ => true
  }

  // ------------------------------------------------- one bit is enough

  /** A request two epochs behind the barrier has the next barrier in front of it. */
  lemma BarrierInFront(q: Queue, i: nat)
    requires Order(q) && Active(q) && i < |q.head|
    requires q.head[i].kind == Fs && q.head[i].epoch >= q.orig.value.epoch + 2
    ensures exists j :: 0 <= j < i && ReqSeq(q, q.head[j]) == DONE
  {
    assert HeadElem(q, q.head[i]);
    assert HasBarrier(q.head, q.taken);
    var j :| 0 <= j < |q.head| && q.head[j].kind == Fs && q.head[j].hard && q.head[j].epoch == q.taken;
    assert HeadElem(q, q.head[j]);
    assert !Ranked(q.head[i], q.head[j]);
  }

  /** Up to the first request that reads as DONE, the colour tells the truth. */
  lemma ColorIsEnough(q: Queue, i: nat)
    requires Order(q) && Active(q) && i < |q.head|
    requires forall j :: 0 <= j < i ==> ReqSeq(q, q.head[j]) < DONE
    ensures q.head[i].kind == Fs ==>
              (ReqSeq(q, q.head[i]) == DRAIN <==> q.head[i].epoch == q.orig.value.epoch)
  {
    assert HeadElem(q, q.head[i]);
    if q.head[i].kind == Fs && q.head[i].epoch >= q.orig.value.epoch + 2 {
      BarrierInFront(q, i);
    }
  }

  // ---------------------------------------------------------- each operation

  lemma InsertRanked(s: seq<Request>, p: nat, r: Request)
    requires p <= |s| && HeadRanked(s)
    requires forall i :: 0 <= i < p ==> Ranked(s[i], r)
    requires forall i :: p <= i < |s| ==> Ranked(r, s[i])
    ensures HeadRanked(InsertAt(s, p, r))
  {
    var t := InsertAt(s, p, r);
    forall i, j | 0 <= i < j < |t| ensures Ranked(t[i], t[j]) {
      if i == p { assert t[j] == s[j - 1]; }
      else if j == p { assert t[i] == s[i]; }
      else { assert t[i] == s[if i < p then i else i - 1] && t[j] == s[if j < p then j else j - 1]; }
    }
  }

  lemma InsertBarrier(s: seq<Request>, p: nat, r: Request, k: nat)
    requires p <= |s| && HasBarrier(s, k)
    ensures HasBarrier(InsertAt(s, p, r), k)
  {
    var i :| 0 <= i < |s| && s[i].kind == Fs && s[i].hard && s[i].epoch == k;
    assert InsertAt(s, p, r)[if i < p then i else i + 1] == s[i];
  }

  /** Inserting one request, everything else being as before. */
  lemma InsertOrder(q: Queue, q': Queue, p: nat, r: Request)
    requires Order(q) && p <= |q.head| && HeadElem(q', r)
    requires q' == q.(head := InsertAt(q.head, p, r), driver := q'.driver, sorted := q'.sorted, inFlight := q'.inFlight)
    requires q'.driver <= q.driver && q'.sorted <= q.sorted
    requires forall i :: 0 <= i < p ==> Ranked(q.head[i], r)
    requires forall i :: p <= i < |q.head| ==> Ranked(r, q.head[i])
    requires forall x :: x in q'.driver ==> Ranked(x, r)
    ensures Order(q')
  {
    InsertRanked(q.head, p, r);
    forall k: nat | q.taken <= k < q.epoch ensures HasBarrier(q'.head, k) { InsertBarrier(q.head, p, r, k); }
    assert forall i :: 0 <= i < |q'.head| ==>
             q'.head[i] == if i < p then q.head[i] else if i == p then r else q.head[i - 1];
    forall i | 0 <= i < |q'.head| ensures HeadElem(q', q'.head[i]) {
      if i != p { assert HeadElem(q, q.head[if i < p then i else i - 1]); }
    }
    InsertBehindDriver(q, q', p, r);
  }

  lemma InsertBehindDriver(q: Queue, q': Queue, p: nat, r: Request)
    requires Order(q) && p <= |q.head| && q'.head == InsertAt(q.head, p, r) && q'.driver <= q.driver
    requires forall x :: x in q'.driver ==> Ranked(x, r)
    ensures forall x, i :: x in q'.driver && 0 <= i < |q'.head| ==> Ranked(x, q'.head[i])
  {
    forall x, i | x in q'.driver && 0 <= i < |q'.head| ensures Ranked(x, q'.head[i]) {
      assert q'.head[i] == if i < p then q.head[i] else if i == p then r else q.head[i - 1];
      if i != p { assert Ranked(x, q.head[if i < p then i else i - 1]); }
    }
  }

  /** Behind a queued request of an older epoch stands that epoch's barrier. */
  lemma BarrierBehind(q: Queue)
    requires Order(q)
    ensures forall i :: 0 <= i < |q.head| && q.head[i].kind == Fs && !q.head[i].hard
                        && q.taken <= q.head[i].epoch < q.epoch ==>
              exists j :: i < j < |q.head| && q.head[j].hard
  {
    forall i | 0 <= i < |q.head| && q.head[i].kind == Fs && !q.head[i].hard && q.taken <= q.head[i].epoch < q.epoch
      ensures exists j :: i < j < |q.head| && q.head[j].hard
    {
      assert HasBarrier(q.head, q.head[i].epoch);
      var j :| 0 <= j < |q.head| && q.head[j].kind == Fs && q.head[j].hard && q.head[j].epoch == q.head[i].epoch;
      assert !Ranked(q.head[j], q.head[i]);
    }
  }

  lemma DispatchOrder(q: Queue, r: Request, p: nat)
    requires Order(q) && Enabled(q, Dispatch(r, p))
    ensures Order(Apply(q, Dispatch(r, p)))
  {
    BarrierBehind(q);
    forall i | 0 <= i < |q.head| ensures if i < p then Ranked(q.head[i], r) else Ranked(r, q.head[i]) {
      assert HeadElem(q, q.head[i]);
    }
    forall x | x in q.driver ensures Ranked(x, r) { assert DriverElem(q, x); }
    InsertOrder(q, Apply(q, Dispatch(r, p)), p, r);
  }

  /** A requeued request finds only special requests in front of its place. */
  lemma RequeueInFront(q: Queue, q1: Queue, r: Request, r1: Request)
    requires Order(q) && StageInv(q) && r in q.driver && q.ordseq != {}
    requires q1 == q.(driver := q.driver - {r}, inFlight := q1.inFlight)
    requires r1 == r.(started := false, soft := true)
    ensures forall i :: 0 <= i < RequeuePos(q1, ReqSeq(q1, r1), 0) ==> q.head[i].kind == Special
  {
    var bit := ReqSeq(q1, r1);
    var p := RequeuePos(q1, bit, 0);
    assert DriverElem(q, r);
    assert IsStage(r) ==> Pending(q, StageBit(r));
    forall i | 0 <= i < p ensures q.head[i].kind == Special {
      assert ReqSeq(q1, q.head[i]) < bit;
      assert HeadElem(q, q.head[i]);
      assert forall j :: 0 <= j < p ==> ReqSeq(q, q.head[j]) == ReqSeq(q1, q.head[j]);
      ColorIsEnough(q, i);
      if IsStage(q.head[i]) {
        assert Key(q.head[i]) in Keys(q.head);
        assert Pending(q, StageBit(q.head[i]));
      }
    }
  }

  /** Whatever else the driver holds ranks no higher. */
  lemma RequeueAmong(q: Queue, r: Request)
    requires Order(q) && StageInv(q) && r in q.driver
    ensures forall x :: x in q.driver && x != r ==> Ranked(x, r.(started := false, soft := true))
  {
    assert DriverElem(q, r);
    forall x | x in q.driver && x != r ensures Ranked(x, r.(started := false, soft := true)) {
      assert DriverElem(q, x);
      assert IsStage(x) && IsStage(r) ==> Key(x) == Key(r);
    }
  }

  lemma RequeueOrderAt(q: Queue, q': Queue, r: Request, p: nat)
    requires Order(q) && r in q.driver && p <= |q.head|
    requires forall i :: 0 <= i < p ==> q.head[i].kind == Special
    requires forall x :: x in q.driver && x != r ==> Ranked(x, r.(started := false, soft := true))
    requires q' == q.(driver := q.driver - {r}, inFlight := q'.inFlight,
                      head := InsertAt(q.head, p, r.(started := false, soft := true)))
    ensures Order(q')
  {
    assert DriverElem(q, r);
    forall i | p <= i < |q.head| ensures Ranked(r.(started := false, soft := true), q.head[i]) {
      assert Ranked(r, q.head[i]);
    }
    InsertOrder(q, q', p, r.(started := false, soft := true));
  }

  lemma RequeueOrder(q: Queue, r: Request)
    requires Order(q) && StageInv(q) && r in q.driver
    ensures Order(Requeue(q, r))
  {
    var r1 := r.(started := false, soft := true);
    var q1 := q.(driver := q.driver - {r}, inFlight := q.inFlight - if Accounted(r) then 1 else 0);
    var p := if q.ordseq == {} then 0 else RequeuePos(q1, ReqSeq(q1, r1), 0);
    if q.ordseq != {} { RequeueInFront(q, q1, r, r1); }
    RequeueAmong(q, r);
    RequeueOrderAt(q, Requeue(q, r), r, p);
  }

  lemma ArrivalOrder(q: Queue, op: Op)
    requires Order(q) && Enabled(q, op) && (op.AddSorted? || op.AddBack? || op.AddFront?)
    requires FsBarriersOnly(op)
    ensures Order(Apply(q, op))
  {
    var q' := Apply(q, op);
    var r := q'.log[|q.log|];
    LoggedOrder(q, q'.log);
    if op.AddSorted? {
      SortedOrder(q.(log := q'.log), r);
    } else if op.AddFront? || !op.hard {
      QueuedOrder(q.(log := q'.log), q', r, if op.AddFront? then 0 else |q.head|);
    } else {
      BarrierOrder(q.(log := q'.log), q', r);
    }
  }

  lemma LoggedOrder(q: Queue, log: seq<Request>)
    requires Order(q)
    ensures Order(q.(log := log))
  {
    var q' := q.(log := log);
    forall i | 0 <= i < |q'.head| ensures HeadElem(q', q'.head[i]) { assert HeadElem(q, q.head[i]); }
    forall x | x in q'.driver ensures DriverElem(q', x) { assert DriverElem(q, x); }
    forall x | x in q'.sorted ensures SortedElem(q', x) { assert SortedElem(q, x); }
  }

  lemma SortedOrder(q: Queue, r: Request)
    requires Order(q) && SortedElem(q, r)
    ensures Order(q.(sorted := q.sorted + {r}))
  {
    var q' := q.(sorted := q.sorted + {r});
    forall i | 0 <= i < |q'.head| ensures HeadElem(q', q'.head[i]) { assert HeadElem(q, q.head[i]); }
    forall x | x in q'.driver ensures DriverElem(q', x) { assert DriverElem(q, x); }
    forall x | x in q'.sorted ensures SortedElem(q', x) { assert x == r || SortedElem(q, x); }
  }

  lemma QueuedOrder(q: Queue, q': Queue, r: Request, p: nat)
    requires Order(q) && r.epoch == q.epoch && r.soft && !r.started && r.color == q.ordcolor && !r.hard
    requires (r.kind == Special && p <= |q.head|) || (r.kind == Fs && p == |q.head|)
    requires q' == q.(head := InsertAt(q.head, p, r))
    ensures Order(q')
  {
    forall i | 0 <= i < |q.head| ensures i < p ==> Ranked(q.head[i], r) { assert HeadElem(q, q.head[i]); }
    forall x | x in q.driver ensures Ranked(x, r) { assert DriverElem(q, x); }
    InsertOrder(q, q', p, r);
  }

  lemma BarrierOrder(q: Queue, q': Queue, r: Request)
    requires Order(q) && q.sorted == {} && r.kind == Fs && r.hard
    requires r.epoch == q.epoch && !r.started && r.color == q.ordcolor
    requires q' == q.(head := q.head + [r], ordcolor := !q.ordcolor, epoch := q.epoch + 1)
    ensures Order(q')
  {
    forall i | 0 <= i < |q.head| ensures Ranked(q.head[i], r) && HeadElem(q', q.head[i]) {
      assert HeadElem(q, q.head[i]);
    }
    forall x | x in q.driver ensures Ranked(x, r) && DriverElem(q', x) { assert DriverElem(q, x); }
    assert q'.head == InsertAt(q.head, |q.head|, r) && q'.head[|q.head|] == r;
    InsertRanked(q.head, |q.head|, r);
    forall k: nat | q'.taken <= k < q'.epoch ensures HasBarrier(q'.head, k) {
      if k < q.epoch { InsertBarrier(q.head, |q.head|, r, k); }
    }
  }

  // ------------------------------------------------------- completing bits

  /** What the driver holds that counts as in flight. */
  ghost function InFlight(driver: set<Request>): set<Request> { set r | r in driver && FsRequest(r) }

  ghost predicate Count(q: Queue) { q.inFlight == |InFlight(q.driver)| }

  /** Nothing that arrived before the barrier is left in front of it. */
  ghost predicate Drained(q: Queue) {
    && (forall r :: r in q.driver ==> r.kind != Fs)
    && (q.orig.Some? ==>
          forall i :: 0 <= i < |q.head| && q.head[i].kind == Fs ==> q.head[i].epoch != q.orig.value.epoch)
  }

  lemma CompleteOrder(q: Queue, bits: set<nat>, error: int)
    requires Order(q) && Active(q)
    requires forall r :: r in q.driver ==> !IsStage(r)
    requires DRAIN in q.ordseq + bits ==> Drained(q)
    requires CurSeq(q.ordseq + bits) == DONE ==> forall i :: 0 <= i < |q.head| ==> !IsStage(q.head[i])
    ensures Order(CompleteSeq(q, bits, error))
  {
    var q' := CompleteSeq(q, bits, error);
    forall i | 0 <= i < |q'.head| ensures HeadElem(q', q'.head[i]) { assert HeadElem(q, q.head[i]); }
    forall x | x in q'.driver ensures DriverElem(q', x) { assert DriverElem(q, x); }
  }

  /** With nothing in flight and no drain request at the head, all is drained. */
  lemma HeadShowsDrained(q: Queue)
    requires Order(q) && Active(q) && Count(q) && q.inFlight == 0
    requires q.head == [] || ReqSeq(q, q.head[0]) > DRAIN
    ensures Drained(q)
  {
    forall r | r in q.driver ensures r.kind != Fs { assert r.kind == Fs ==> r in InFlight(q.driver); }
    forall i | 0 <= i < |q.head| && q.head[i].kind == Fs ensures q.head[i].epoch != q.orig.value.epoch {
      assert HeadElem(q, q.head[0]) && HeadElem(q, q.head[i]);
      ColorIsEnough(q, 0);
      if i > 0 { assert Ranked(q.head[0], q.head[i]); }
    }
  }

  lemma ReturnedOrder(q: Queue, r: Request)
    requires Order(q) && r in q.driver
    ensures Order(Returned(q, r))
  {
    var q' := Returned(q, r);
    forall i | 0 <= i < |q'.head| ensures HeadElem(q', q'.head[i]) { assert HeadElem(q, q.head[i]); }
    forall x | x in q'.driver ensures DriverElem(q', x) { assert DriverElem(q, x); }
  }

  lemma ReturnedCount(q: Queue, r: Request)
    requires Count(q) && r in q.driver && r.started
    ensures Count(Returned(q, r))
  {
    if FsRequest(r) {
      assert InFlight(q.driver - {r}) == InFlight(q.driver) - {r};
    } else {
      assert InFlight(q.driver - {r}) == InFlight(q.driver);
    }
  }

  /** A drain that DrainCheck finds complete is complete. */
  lemma DrainCheckOrder(q: Queue)
    requires Order(q) && Count(q) && Stages(q)
    ensures Order(DrainCheck(q)) && Count(DrainCheck(q))
  {
    if DrainCheck(q) != q {
      HeadShowsDrained(q);
      forall r | r in q.driver ensures !IsStage(r) { assert DriverElem(q, r); }
      NoStageQueued(q, {DRAIN});
      CompleteOrder(q, {DRAIN}, 0);
    }
  }

  /** When the last bit is set no stage request is left in the queue. */
  lemma NoStageQueued(q: Queue, bits: set<nat>)
    requires forall bit :: PREFLUSH <= bit <= POSTFLUSH && bit in q.ordseq + bits ==> !Pending(q, bit)
    ensures CurSeq(q.ordseq + bits) == DONE ==> forall i :: 0 <= i < |q.head| ==> !IsStage(q.head[i])
  {
    if CurSeq(q.ordseq + bits) == DONE {
      forall i | 0 <= i < |q.head| ensures !IsStage(q.head[i]) {
        assert Key(q.head[i]) in Keys(q.head);
        assert IsStage(q.head[i]) ==> !Pending(q, StageBit(q.head[i]));
      }
    }
  }

  lemma CompleteStageOrder(q: Queue, r: Request, error: int)
    requires Order(q) && Count(q) && StageInv(q) && r in q.driver && IsStage(r)
    ensures Order(Complete(q, r, error)) && Count(Complete(q, r, error))
  {
    var q1 := Returned(q, r);
    assert DriverElem(q, r);
    ReturnedKeys(q, r);
    ReturnedOrder(q, r);
    ReturnedCount(q, r);
    assert DrainCheck(q1) == q1;
    forall x | x in q1.driver ensures !IsStage(x) && x.kind != Fs {
      assert DriverElem(q, x);
      assert IsStage(x) ==> Key(x) == Key(r);
    }
    forall i | 0 <= i < |q1.head| && q1.head[i].kind == Fs ensures q1.head[i].epoch != q1.orig.value.epoch {
      assert HeadElem(q, q.head[i]);
    }
    assert Drained(q1);
    NoStageQueued(q1, {StageBit(r)});
    CompleteOrder(q1, {StageBit(r)}, error);
  }

  lemma CompleteOrdinaryOrder(q: Queue, r: Request, error: int)
    requires Order(q) && Count(q) && StageInv(q) && r in q.driver && !IsStage(r)
    ensures Order(Complete(q, r, error)) && Count(Complete(q, r, error))
  {
    assert DriverElem(q, r);
    ReturnedKeys(q, r);
    ReturnedOrder(q, r);
    ReturnedCount(q, r);
    assert Stages(Returned(q, r));
    DrainCheckOrder(Returned(q, r));
  }

  // ------------------------------------------------------- the driver's turn

  /** The first ordinary fs request in the queue belongs to the oldest live epoch
      or, during a sequence, to the one after it. */
  lemma FrontEpoch(q: Queue)
    requires Order(q) && q.head != [] && q.head[0].kind == Fs
    ensures q.ordseq == {} ==> q.head[0].epoch == q.taken
    ensures q.ordseq != {} ==>
              (ReqSeq(q, q.head[0]) == DRAIN <==> q.head[0].epoch == q.orig.value.epoch)
  {
    assert HeadElem(q, q.head[0]);
    if q.ordseq != {} {
      ColorIsEnough(q, 0);
    } else if q.taken < q.epoch {
      assert HasBarrier(q.head, q.taken);
      var j :| 0 <= j < |q.head| && q.head[j].kind == Fs && q.head[j].hard && q.head[j].epoch == q.taken;
      if j > 0 { assert Ranked(q.head[0], q.head[j]); }
    }
  }

  lemma PopBarriers(s: seq<Request>, k: nat)
    requires s != [] && HasBarrier(s, k) && !(s[0].kind == Fs && s[0].hard && s[0].epoch == k)
    ensures HasBarrier(s[1..], k)
  {
    var i :| 0 <= i < |s| && s[i].kind == Fs && s[i].hard && s[i].epoch == k;
    assert s[1..][i - 1] == s[i];
  }

  lemma TakeRanked(q: Queue, r: Request)
    requires Order(q) && q.head != [] && r == q.head[0].(started := true)
    ensures HeadRanked(q.head[1..])
    ensures forall i :: 0 < i < |q.head| ==> Ranked(r, q.head[i])
  {
    forall i | 0 < i < |q.head| ensures Ranked(r, q.head[i]) { assert Ranked(q.head[0], q.head[i]); }
  }

  lemma TakeOrder(q: Queue, q': Queue)
    requires Order(q) && q.head != [] && DriverElem(q, q.head[0].(started := true))
    requires var r := q.head[0].(started := true);
             q' == q.(head := q.head[1..], driver := q.driver + {r}, inFlight := q'.inFlight)
    ensures Order(q')
  {
    var r := q.head[0].(started := true);
    TakeRanked(q, r);
    forall i | 0 <= i < |q'.head| ensures HeadElem(q', q'.head[i]) { assert HeadElem(q, q.head[i + 1]); }
    forall x | x in q'.driver ensures DriverElem(q', x) { assert x == r || DriverElem(q, x); }
    forall x | x in q'.sorted ensures SortedElem(q', x) { assert SortedElem(q, x); }
    forall x, i | x in q'.driver && 0 <= i < |q'.head| ensures Ranked(x, q'.head[i]) {
      assert x == r || Ranked(x, q.head[i + 1]);
    }
    forall k: nat | q.taken <= k < q.epoch ensures HasBarrier(q'.head, k) { PopBarriers(q.head, k); }
  }

  lemma PeekOrder(q: Queue)
    requires Order(q) && q.head != [] && !(q.head[0].kind == Fs && q.head[0].hard)
    ensures Order(q.(head := [q.head[0].(started := true)] + q.head[1..]))
  {
    var q' := q.(head := [q.head[0].(started := true)] + q.head[1..]);
    PeekRanked(q.head);
    forall i | 0 <= i < |q'.head| ensures HeadElem(q', q'.head[i]) { assert HeadElem(q, q.head[i]); }
    forall x | x in q'.driver ensures DriverElem(q', x) { assert DriverElem(q, x); }
    forall x | x in q'.sorted ensures SortedElem(q', x) { assert SortedElem(q, x); }
    forall x, i | x in q'.driver && 0 <= i < |q'.head| ensures Ranked(x, q'.head[i]) { assert Ranked(x, q.head[i]); }
    forall k: nat | q.taken <= k < q.epoch ensures HasBarrier(q'.head, k) { PeekBarriers(q.head, k); }
  }

  lemma PeekRanked(s: seq<Request>)
    requires s != [] && HeadRanked(s)
    ensures HeadRanked([s[0].(started := true)] + s[1..])
  {
    var t := [s[0].(started := true)] + s[1..];
    forall i, j | 0 <= i < j < |t| ensures Ranked(t[i], t[j]) { assert Ranked(s[i], s[j]); }
  }

  lemma PeekBarriers(s: seq<Request>, k: nat)
    requires s != [] && HasBarrier(s, k) && !(s[0].kind == Fs && s[0].hard)
    ensures HasBarrier([s[0].(started := true)] + s[1..], k)
  {
    var i :| 0 <= i < |s| && s[i].kind == Fs && s[i].hard && s[i].epoch == k;
    assert ([s[0].(started := true)] + s[1..])[i] == s[i];
  }

  /** What blk_do_ordered hands out during a sequence has its turn. */
  lemma HandedOutInTurn(q: Queue)
    requires Order(q) && StageInv(q) && q.head != []
    requires q.ordseq != {} || !(FsRequest(q.head[0]) && q.head[0].hard)
    requires DoOrdered(q).rq.Some?
    ensures DoOrdered(q).q == q
    ensures DriverElem(q, q.head[0].(started := true))
    ensures !(q.head[0].kind == Fs && q.head[0].hard)
  {
    var r := q.head[0];
    assert HeadElem(q, r);
    assert Key(r) in Keys(q.head);
    assert IsStage(r) ==> Pending(q, StageBit(r));
    if r.kind == Fs { FrontEpoch(q); }
  }

  /** The first stage in the queue is the one whose turn it is. */
  lemma FirstStageTurn(q: Queue)
    requires Order(q) && StageInv(q) && q.head != [] && IsStage(q.head[0]) && DRAIN in q.ordseq
    requires forall r :: r in q.driver ==> !IsStage(r)
    ensures CurSeq(q.ordseq) == StageBit(q.head[0])
  {
    var cur, bit := CurSeq(q.ordseq), StageBit(q.head[0]);
    assert Key(q.head[0]) in Keys(q.head);
    assert Pending(q, bit) && (PREFLUSH <= cur < bit ==> Pending(q, cur));
    assert forall r :: r in q.driver ==> Key(r) >= 0;
    forall i | 0 <= i < |q.head| ensures Key(q.head[i]) != -(cur as int) || !(PREFLUSH <= cur < bit) {
      assert HeadElem(q, q.head[i]) && HeadElem(q, q.head[0]);
      if i > 0 { assert Ranked(q.head[0], q.head[i]); }
    }
  }

  // ---------------------------------------------------------- starting

  lemma StashedOrder(q: Queue)
    requires Order(q) && q.head != [] && q.ordseq == {} && q.head[0].kind == Fs && q.head[0].hard
    ensures Order(Stashed(q)) && Active(Stashed(q))
    ensures forall r :: r in q.driver ==> !IsStage(r)
    ensures forall i :: 0 < i < |q.head| && q.head[i].kind != Special ==>
              q.head[i].kind == Fs && q.head[i].epoch > q.head[0].epoch
  {
    FrontEpoch(q);
    var q' := Stashed(q);
    assert HeadElem(q, q.head[0]);
    forall i | 0 < i < |q.head|
      ensures HeadElem(q', q.head[i])
      ensures q.head[i].kind != Special ==> q.head[i].kind == Fs && q.head[i].epoch > q.head[0].epoch
    {
      assert HeadElem(q, q.head[i]) && Ranked(q.head[0], q.head[i]);
    }
    forall x | x in q.driver ensures DriverElem(q', x) && !IsStage(x) { assert DriverElem(q, x); }
    forall k: nat | q'.taken <= k < q'.epoch ensures HasBarrier(q'.head, k) { PopBarriers(q.head, k); }
  }

  ghost predicate HeadAbove(s: seq<Request>, rank: nat) {
    forall i :: 0 <= i < |s| && s[i].kind != Special ==> rank < Rank(s[i])
  }

  lemma PushOrder(q: Queue, kind: Kind)
    requires Order(q) && Active(q) && IsStage(StageRequest(kind, q.orig.value.epoch))
    requires forall r :: r in q.driver ==> !IsStage(r)
    requires HeadAbove(q.head, Rank(StageRequest(kind, q.orig.value.epoch)))
    ensures Order(InsertFront(q, StageRequest(kind, q.orig.value.epoch)))
    ensures HeadAbove(InsertFront(q, StageRequest(kind, q.orig.value.epoch)).head,
                      Rank(StageRequest(kind, q.orig.value.epoch)) - 1)
  {
    var r := StageRequest(kind, q.orig.value.epoch);
    var q' := InsertFront(q, r);
    assert q'.head == InsertAt(q.head, 0, r);
    forall x | x in q.driver ensures Ranked(x, r) { assert DriverElem(q, x); }
    InsertOrder(q, q', 0, r);
  }

  lemma HeadAboveLess(s: seq<Request>, rank: nat, less: nat)
    requires HeadAbove(s, rank) && less <= rank
    ensures HeadAbove(s, less)
  {
  }

  lemma QueueStagesOrder(q: Queue)
    requires Order(q) && Active(q) && HeadAbove(q.head, 10 * q.orig.value.epoch + POSTFLUSH)
    requires forall r :: r in q.driver ==> !IsStage(r)
    ensures Order(QueueStages(q, q.orig.value.epoch))
  {
    var e := q.orig.value.epoch;
    var q1 := if q.ordered.doPostflush then InsertFront(q, StageRequest(PostFlushRq, e)) else q;
    if q.ordered.doPostflush {
      PushOrder(q, PostFlushRq);
    } else {
      HeadAboveLess(q.head, 10 * e + POSTFLUSH, 10 * e + BAR);
    }
    var q2 := if q.ordered.doBar then InsertFront(q1, StageRequest(BarRq, e)) else q1;
    if q.ordered.doBar { PushOrder(q1, BarRq); } else { HeadAboveLess(q1.head, 10 * e + BAR, 10 * e + PREFLUSH); }
    if q.ordered.doPreflush { PushOrder(q2, PreFlushRq); }
  }

  lemma QueueStagesTail(q: Queue, epoch: nat)
    ensures var s := QueueStages(q, epoch).head;
            forall i :: 0 <= i < |s| && s[i].kind == Fs ==> s[i] in q.head
  {
  }

  /** If nothing is in flight when the barrier starts, nothing needs draining. */
  lemma StartDrained(q: Queue)
    requires Order(q) && Count(q) && q.head != [] && q.ordseq == {} && q.inFlight == 0
    requires q.head[0].kind == Fs && q.head[0].hard
    ensures Drained(QueueStages(Stashed(q), q.head[0].epoch))
  {
    var q1, e := Stashed(q), q.head[0].epoch;
    StashedOrder(q);
    QueueStagesTail(q1, e);
    var q2 := QueueStages(q1, e);
    forall r | r in q2.driver ensures r.kind != Fs { assert r.kind == Fs ==> r in InFlight(q.driver); }
    forall i | 0 <= i < |q2.head| && q2.head[i].kind == Fs ensures q2.head[i].epoch != e {
      assert q2.head[i] in q1.head;
    }
  }

  lemma QueuedOrderAtStart(q: Queue)
    requires Order(q) && q.head != [] && q.ordseq == {} && q.head[0].kind == Fs && q.head[0].hard
    ensures Order(QueueStages(Stashed(q), q.head[0].epoch))
    ensures forall r :: r in q.driver ==> !IsStage(r)
  {
    StashedOrder(q);
    QueueStagesOrder(Stashed(q));
  }

  lemma StartEmptiesHead(q: Queue)
    requires StageInv(q) && q.head != [] && q.ordseq == {} && q.head[0].kind == Fs
    ensures var q2 := QueueStages(Stashed(q), q.head[0].epoch);
            CurSeq(q2.ordseq + StartSkip(q)) == DONE ==> forall i :: 0 <= i < |q2.head| ==> !IsStage(q2.head[i])
  {
    StashOriginal(q);
    PushStages(Stashed(q), q.head[0].epoch);
    NoStageQueued(QueueStages(Stashed(q), q.head[0].epoch), StartSkip(q));
  }

  lemma StartOrder(q: Queue)
    requires Order(q) && Count(q) && StageInv(q) && q.head != [] && q.ordseq == {}
    requires q.head[0].kind == Fs && q.head[0].hard
    ensures Order(StartOrdered(q).q)
  {
    var q2 := QueueStages(Stashed(q), q.head[0].epoch);
    StartEmptiesHead(q);
    QueuedOrderAtStart(q);
    StartComplete(q, q2);
  }

  lemma StartComplete(q: Queue, q2: Queue)
    requires q.head != [] && q.ordseq == {} && q2 == QueueStages(Stashed(q), q.head[0].epoch)
    requires Order(q) && Count(q) && q.head[0].kind == Fs && q.head[0].hard
    requires Order(q2) && forall r :: r in q2.driver ==> !IsStage(r)
    requires CurSeq(q2.ordseq + StartSkip(q)) == DONE ==> forall i :: 0 <= i < |q2.head| ==> !IsStage(q2.head[i])
    ensures Order(CompleteSeq(q2, StartSkip(q), 0))
  {
    if q.inFlight == 0 { StartDrained(q); }
    assert DRAIN in q2.ordseq + StartSkip(q) ==> q.inFlight == 0;
    CompleteOrder(q2, StartSkip(q), 0);
  }

  /** What a starting barrier hands out at once is its first stage. */
  lemma StartHandsOutStage(q: Queue)
    requires q.head != [] && q.ordseq == {} && q.nextOrdered.byDrain && StartOrdered(q).rq.Some?
    ensures var o := StartOrdered(q);
            && o.q.head != [] && IsStage(o.q.head[0]) && DRAIN in o.q.ordseq
            && o.q.driver == q.driver && o.q.inFlight == q.inFlight
  {
    var q1, e := Stashed(q), q.head[0].epoch;
    PushesOnly(q1, e);
    FirstStacked(q1, e);
    CompleteKeeps(QueueStages(q1, e), StartSkip(q), 0);
  }

  lemma FirstStacked(q: Queue, epoch: nat)
    requires AnyStage(q.ordered)
    ensures QueueStages(q, epoch).head != [] && IsStage(QueueStages(q, epoch).head[0])
  {
  }

  lemma TakeCount(q: Queue, q': Queue)
    requires Count(q) && StageInv(q) && q.head != []
    requires var r := q.head[0].(started := true);
             && q'.driver == q.driver + {r}
             && q'.inFlight == q.inFlight + if Accounted(r) then 1 else 0
    ensures Count(q')
  {
    var r := q.head[0].(started := true);
    assert Key(r) == Key(q.head[0]) && Key(q.head[0]) in Keys(q.head);
    assert r in q.driver ==> Key(r) in SetKeys(q.driver);
    if FsRequest(r) {
      assert InFlight(q.driver + {r}) == InFlight(q.driver) + {r};
    } else {
      assert InFlight(q.driver + {r}) == InFlight(q.driver);
    }
  }

  /** blk_do_ordered starts a sequence. */
  predicate Starts(q: Queue)
    requires q.head != []
  {
    q.ordseq == {} && q.head[0].kind == Fs && q.head[0].hard
  }

  lemma HeadIsFs(q: Queue)
    requires StageInv(q) && q.head != [] && q.ordseq == {} && FsRequest(q.head[0])
    ensures q.head[0].kind == Fs
  {
    assert Key(q.head[0]) in Keys(q.head);
    assert !Pending(q, BAR);
  }

  lemma DoOrderedOrder(q: Queue)
    requires Order(q) && Count(q) && StageInv(q) && q.head != []
    ensures Order(DoOrdered(q).q) && Count(DoOrdered(q).q)
    ensures DoOrdered(q).rq.Some? ==>
              && DoOrdered(q).q.head != []
              && DriverElem(DoOrdered(q).q, DoOrdered(q).q.head[0].(started := true))
              && !(DoOrdered(q).q.head[0].kind == Fs && DoOrdered(q).q.head[0].hard)
  {
    if q.ordseq == {} && FsRequest(q.head[0]) { HeadIsFs(q); }
    if Starts(q) {
      StartOrder(q);
      StartStages(q);
      if StartOrdered(q).rq.Some? {
        StartHandsOutStage(q);
        StartTurn(q, StartOrdered(q).q);
      }
    } else if DoOrdered(q).rq.Some? {
      HandedOutInTurn(q);
    }
  }

  lemma StartTurn(q: Queue, q': Queue)
    requires Order(q) && q.ordseq == {} && Order(q') && StageInv(q') && q'.driver == q.driver
    requires q'.head != [] && IsStage(q'.head[0]) && DRAIN in q'.ordseq
    ensures DriverElem(q', q'.head[0].(started := true))
  {
    forall r | r in q'.driver ensures !IsStage(r) { assert DriverElem(q, r); }
    FirstStageTurn(q');
    assert HeadElem(q', q'.head[0]);
  }

  lemma OrderedInv(q: Queue)
    requires StageInv(q) && q.head != []
    ensures StageInv(DoOrdered(q).q)
  {
    DoOrderedStages(q);
  }

  lemma NextOrder(q: Queue, take: bool)
    requires Order(q) && Count(q) && StageInv(q) && q.head != []
    ensures Order(Next(q, take)) && Count(Next(q, take))
  {
    DoOrderedOrder(q);
    OrderedInv(q);
    HandsOutHead(q);
    var o := DoOrdered(q);
    if o.rq.Some? {
      if take {
        TakeOrder(o.q, Next(q, take));
        TakeCount(o.q, Next(q, take));
      } else {
        PeekOrder(o.q);
      }
    }
  }

  lemma RequeueCount(q: Queue, r: Request)
    requires Order(q) && Count(q) && r in q.driver
    ensures Count(Requeue(q, r))
  {
    assert DriverElem(q, r);
    ReturnedCount(q, r);
  }

  lemma StepOrder(q: Queue, op: Op)
    requires Order(q) && Count(q) && StageInv(q) && Enabled(q, op) && FsBarriersOnly(op)
    ensures Order(Apply(q, op)) && Count(Apply(q, op))
  {
    match op
    case AddSorted => ArrivalOrder(q, op);
    case AddBack(_, _, _) => ArrivalOrder(q, op);
    case AddFront(_) => ArrivalOrder(q, op);
    case Dispatch(r, p) => DispatchOrder(q, r, p);
    case DriverNext(take) => NextOrder(q, take);
    case DriverComplete(r, error) =>
      if IsStage(r) { CompleteStageOrder(q, r, error); } else { CompleteOrdinaryOrder(q, r, error); }
    case DriverRequeue(r) => RequeueOrder(q, r); RequeueCount(q, r);
    case ProxyError(error) => ProxyErrorOrder(q, error);
  }

  lemma ProxyErrorOrder(q: Queue, error: int)
    requires Order(q)
    ensures Order(BarError(q, error))
  {
    var q' := BarError(q, error);
    forall i | 0 <= i < |q'.head| ensures HeadElem(q', q'.head[i]) { assert HeadElem(q, q.head[i]); }
    forall x | x in q'.driver ensures DriverElem(q', x) { assert DriverElem(q, x); }
    forall x | x in q'.sorted ensures SortedElem(q', x) { assert SortedElem(q, x); }
  }
}
