/** The request queue of block/elevator.c as the ordered-barrier sequence of
    block/blk-barrier.c sees it.  Each operation under queue_lock is one
    function from queue state to queue state; a run is a sequence of operations.

    Bits of `ordseq` are written by their index: STARTED is bit 0, DONE is bit 5. */
module BarrierModel {
  import opened Wrappers

  const STARTED := 0
  const DRAIN := 1
  const PREFLUSH := 2
  const BAR := 3
  const POSTFLUSH := 4
  const DONE := 5

  /** Fs requests come from file systems; Special ones do not follow barrier
      ordering; the other three are the stage requests embedded in the queue. */
  datatype Kind = Fs | Special | PreFlushRq | BarRq | PostFlushRq

  /** `hard`, `soft` and `started` are REQ_HARDBARRIER, REQ_SOFTBARRIER and
      REQ_STARTED; `color` is REQ_ORDERED_COLOR; `empty` says the request has no
      sectors.  `ticket` (arrival number) and `epoch` (number of fs barriers that
      arrived earlier) are history: no operation branches on them. */
  datatype Request = Request(kind: Kind, ticket: nat, epoch: nat, color: bool,
                             hard: bool, soft: bool, started: bool, empty: bool)

  /** The QUEUE_ORDERED_* bits that matter for ordering. */
  datatype Mode = Mode(byDrain: bool, byTag: bool, doPreflush: bool, doBar: bool, doPostflush: bool)

  const ORDERED_NONE := Mode(false, false, false, false, false)
  const ORDERED_DRAIN := Mode(true, false, false, true, false)

  /** The values blk_queue_ordered accepts. */
  predicate ValidMode(m: Mode) {
    || m == ORDERED_NONE
    || (m.byDrain != m.byTag && m.doBar && (m.doPostflush ==> m.doPreflush))
  }

  /** `sorted` is what the I/O scheduler holds, `driver` what has been dequeued
      and not completed.  The last five fields are history: the arrivals, the
      tickets of completed requests, the number of barriers taken off the
      queue, the ends of original barrier requests, and the errors reported
      during the current sequence. */
  datatype Queue = Queue(head: seq<Request>, sorted: set<Request>, driver: set<Request>,
                         inFlight: int, ordcolor: bool,
                         ordseq: set<nat>, ordered: Mode, nextOrdered: Mode,
                         orig: Option<Request>, orderr: int,
                         epoch: nat, log: seq<Request>, done: set<nat>, taken: nat,
                         ended: seq<(nat, int)>, errs: seq<int>)

  function Init(mode: Mode): Queue {
    Queue([], {}, {}, 0, false, {}, mode, mode, None, 0, 0, [], {}, 0, [], [])
  }

  predicate IsStage(r: Request) {
    r.kind == PreFlushRq || r.kind == BarRq || r.kind == PostFlushRq
  }

  function StageBit(r: Request): nat
    requires IsStage(r)
  {
    match r.kind
    case PreFlushRq => PREFLUSH
    case BarRq => BAR
    case _ => POSTFLUSH
  }

  /** blk_fs_request: the proxy is initialised from the barrier's bio. */
  predicate FsRequest(r: Request) { r.kind == Fs || r.kind == BarRq }

  /** blk_account_rq. */
  predicate Accounted(r: Request) { r.started && FsRequest(r) }

  /** ffz: the least clear bit. */
  function CurSeq(ordseq: set<nat>): (bit: nat)
    ensures bit <= DONE
    ensures bit < DONE ==> bit !in ordseq
    ensures forall b: nat :: b < bit ==> b in ordseq
  {
    if STARTED !in ordseq then STARTED
    else if DRAIN !in ordseq then DRAIN
    else if PREFLUSH !in ordseq then PREFLUSH
    else if BAR !in ordseq then BAR
    else if POSTFLUSH !in ordseq then POSTFLUSH
    else DONE
  }

  /** blk_ordered_req_seq; `orig` is the request stashed by StartOrdered. */
  function SeqOf(orig: Option<Request>, r: Request): (bit: nat)
    ensures DRAIN <= bit <= DONE
  {
    if IsStage(r) then StageBit(r)
    else if r.kind == Special then DRAIN
    else if orig.Some? && r.color == orig.value.color then DRAIN
    else DONE
  }

  function ReqSeq(q: Queue, r: Request): (bit: nat)
    ensures DRAIN <= bit <= DONE
  {
    SeqOf(q.orig, r)
  }

  /** blk_ordered_complete_seq. */
  function CompleteSeq(q: Queue, bits: set<nat>, error: int): Queue {
    var orderr := if error != 0 && q.orderr == 0 then error else q.orderr;
    var q1 := q.(orderr := orderr, ordseq := q.ordseq + bits, errs := q.errs + [error]);
    if CurSeq(q1.ordseq) != DONE then q1
    else if q1.orig.None? then q1.(ordseq := {})
    else q1.(ordseq := {}, ended := q1.ended + [(q1.orig.value.ticket, orderr)],
             done := q1.done + {q1.orig.value.ticket})
  }

  /** The tail of elv_completed_request: has the queue just been drained? */
  function DrainCheck(q: Queue): Queue {
    if q.ordseq != {} && q.inFlight == 0 && CurSeq(q.ordseq) == DRAIN
       && (q.head == [] || ReqSeq(q, q.head[0]) > DRAIN)
    then CompleteSeq(q, {DRAIN}, 0)
    else q
  }

  function StageRequest(kind: Kind, epoch: nat): Request {
    Request(kind, 0, epoch, false, true, true, false, false)
  }

  /** ELEVATOR_INSERT_FRONT. */
  function InsertFront(q: Queue, r: Request): Queue {
    q.(head := [r.(soft := true)] + q.head)
  }

  /** The mode a barrier starts with: an empty barrier has no proxy and no
      postflush, and cannot be ordered by tag without a preflush. */
  function StartMode(next: Mode, empty: bool): Mode {
    if !empty then next
    else
      var m := next.(doBar := false, doPostflush := false);
      if m.byTag && !m.doPreflush then m.(byTag := false, byDrain := true) else m
  }

  /** The stage requests, pushed on the head in reverse order. */
  function QueueStages(q: Queue, epoch: nat): Queue {
    var q1 := if q.ordered.doPostflush then InsertFront(q, StageRequest(PostFlushRq, epoch)) else q;
    var q2 := if q.ordered.doBar then InsertFront(q1, StageRequest(BarRq, epoch)) else q1;
    if q.ordered.doPreflush then InsertFront(q2, StageRequest(PreFlushRq, epoch)) else q2
  }

  function Skipped(m: Mode, mustDrain: bool): set<nat> {
    (if m.doPostflush then {} else {POSTFLUSH}) + (if m.doBar then {} else {BAR})
    + (if m.doPreflush then {} else {PREFLUSH}) + (if mustDrain then {} else {DRAIN})
  }

  /** What blk_do_ordered leaves behind: the state, the request for the driver
      (None for NULL), and whether the head request is still there. */
  datatype Ordered = Ordered(q: Queue, rq: Option<Request>, present: bool)

  /** The state StartOrdered has reached when it queues the stages. */
  function Stashed(q: Queue): Queue
    requires q.head != []
  {
    var b := q.head[0];
    q.(orderr := 0, ordered := StartMode(q.nextOrdered, b.empty), errs := [],
       ordseq := q.ordseq + {STARTED}, head := q.head[1..], orig := Some(b), taken := q.taken + 1)
  }

  predicate MustDrain(q: Queue)
    requires q.head != []
  {
    StartMode(q.nextOrdered, q.head[0].empty).byDrain && q.inFlight != 0
  }

  function StartSkip(q: Queue): set<nat>
    requires q.head != []
  {
    Skipped(StartMode(q.nextOrdered, q.head[0].empty), MustDrain(q))
  }

  predicate AnyStage(m: Mode) { m.doPostflush || m.doBar || m.doPreflush }

  /** start_ordered. */
  function StartOrdered(q: Queue): Ordered
    requires q.head != []
  {
    var q2 := QueueStages(Stashed(q), q.head[0].epoch);
    var q3 := CompleteSeq(q2, StartSkip(q), 0);
    Ordered(q3, if MustDrain(q) || !AnyStage(q2.ordered) || q2.head == [] then None else Some(q2.head[0]),
            q3.ordseq != {})
  }

  const EOPNOTSUPP := -95

  /** blk_do_ordered on the request at the head. */
  function DoOrdered(q: Queue): Ordered
    requires q.head != []
  {
    var r := q.head[0];
    var barrier := FsRequest(r) && r.hard;
    if q.ordseq == {} then
      if !barrier then Ordered(q, Some(r), true)
      else if q.nextOrdered != ORDERED_NONE then StartOrdered(q)
      else Ordered(q.(head := q.head[1..], taken := q.taken + 1, done := q.done + {r.ticket},
                      ended := q.ended + [(r.ticket, EOPNOTSUPP)]), None, false)
    else if r.kind == Special then Ordered(q, Some(r), true)
    else if q.ordered.byTag then
      Ordered(q, if barrier && r.kind != BarRq then None else Some(r), true)
    else
      Ordered(q, if ReqSeq(q, r) > CurSeq(q.ordseq) then None else Some(r), true)
  }

  /** One turn of the driver at the head of the queue: blk_peek_request marks the
      request it is given as started; `take` says blk_start_request dequeues it. */
  function Next(q: Queue, take: bool): Queue
    requires q.head != []
  {
    var o := DoOrdered(q);
    if o.rq.None? || o.q.head == [] then o.q
    else
      var r := o.q.head[0].(started := true);
      if !take then o.q.(head := [r] + o.q.head[1..])
      else o.q.(head := o.q.head[1..], driver := o.q.driver + {r},
                inFlight := o.q.inFlight + if Accounted(r) then 1 else 0)
  }

  /** Where the ELEVATOR_INSERT_REQUEUE scan stops: the first request from `i`
      on whose sequence number is not below `bit`. */
  function RequeuePos(q: Queue, bit: nat, i: nat): (p: nat)
    requires i <= |q.head|
    ensures i <= p <= |q.head|
    ensures forall k :: i <= k < p ==> ReqSeq(q, q.head[k]) < bit
    ensures p < |q.head| ==> bit <= ReqSeq(q, q.head[p])
    decreases |q.head| - i
  {
    if i == |q.head| || bit <= ReqSeq(q, q.head[i]) then i else RequeuePos(q, bit, i + 1)
  }

  function InsertAt(s: seq<Request>, p: nat, r: Request): seq<Request>
    requires p <= |s|
  {
    s[..p] + [r] + s[p..]
  }

  /** ELEVATOR_INSERT_REQUEUE: to the front, or in sequence order. */
  function Reinserted(q: Queue, r: Request): Queue {
    var r1 := r.(soft := true);
    q.(head := InsertAt(q.head, if q.ordseq == {} then 0 else RequeuePos(q, ReqSeq(q, r1), 0), r1))
  }

  /** The request leaves the driver's books. */
  function Released(q: Queue, r: Request): Queue {
    q.(driver := q.driver - {r}, inFlight := q.inFlight - if Accounted(r) then 1 else 0)
  }

  /** elv_requeue_request. */
  function Requeue(q: Queue, r: Request): Queue {
    Reinserted(Released(q, r), r.(started := false))
  }

  /** The state in which completion starts: the request has left the driver. */
  function Returned(q: Queue, r: Request): Queue {
    Released(q, r).(done := if IsStage(r) then q.done else q.done + {r.ticket})
  }

  /** Completion of a request the driver holds: elv_completed_request, and for a
      stage request its end_io function. */
  function Complete(q: Queue, r: Request, error: int): Queue {
    var q2 := DrainCheck(Returned(q, r));
    if IsStage(r) then CompleteSeq(q2, {StageBit(r)}, error) else q2
  }

  /** req_bio_endio on the proxy records an error without ending anything. */
  function BarError(q: Queue, error: int): Queue {
    q.(orderr := if error != 0 && q.orderr == 0 then error else q.orderr, errs := q.errs + [error])
  }

  /** The request as __elv_add_request stamps it. */
  function Arrival(q: Queue, kind: Kind, hard: bool, soft: bool, empty: bool): Request {
    Request(kind, |q.log|, q.epoch, q.ordcolor, hard, soft, false, empty)
  }

  /** The bookkeeping of __elv_add_request: any hard request toggles the colour. */
  function Register(q: Queue, r: Request): Queue {
    q.(log := q.log + [r], ordcolor := q.ordcolor != r.hard,
       epoch := if r.kind == Fs && r.hard then q.epoch + 1 else q.epoch)
  }

  datatype Op =
    | AddSorted
    | AddBack(kind: Kind, hard: bool, empty: bool)
    | AddFront(hard: bool)
    | Dispatch(r: Request, p: nat)
    | DriverNext(take: bool)
    | DriverComplete(r: Request, error: int)
    | DriverRequeue(r: Request)
    | ProxyError(error: int)

  predicate Flagged(r: Request) { r.hard || r.soft || r.started }

  /** Back insertion first drains the scheduler by Dispatch operations; only
      non-fs requests use front insertion; the scheduler puts a request behind
      every flagged one, as elv_dispatch_sort and elv_dispatch_add_tail do. */
  predicate Enabled(q: Queue, op: Op) {
    match op
    case AddSorted => true
    case AddBack(kind, _, _) => (kind == Fs || kind == Special) && q.sorted == {}
    case AddFront(_) => true
    case Dispatch(r, p) =>
      r in q.sorted && p <= |q.head| && forall i :: p <= i < |q.head| ==> !Flagged(q.head[i])
    case DriverNext(_) => q.head != []
    case DriverComplete(r, _) => r in q.driver
    case DriverRequeue(r) => r in q.driver
    case ProxyError(_) => q.ordseq != {} && exists r :: r in q.driver && r.kind == BarRq
  }

  function Apply(q: Queue, op: Op): Queue
    requires Enabled(q, op)
  {
    match op
    case AddSorted =>
      var r := Arrival(q, Fs, false, false, false);
      Register(q, r).(sorted := q.sorted + {r})
    case AddBack(kind, hard, empty) =>
      var r := Arrival(q, kind, hard, true, empty);
      Register(q, r).(head := q.head + [r])
    case AddFront(hard) =>
      var r := Arrival(q, Special, hard, true, false);
      InsertFront(Register(q, r), r)
    case Dispatch(r, p) => q.(sorted := q.sorted - {r}, head := InsertAt(q.head, p, r))
    case DriverNext(take) => Next(q, take)
    case DriverComplete(r, error) => Complete(q, r, error)
    case DriverRequeue(r) => Requeue(q, r)
    case ProxyError(error) => BarError(q, error)
  }

  /** `run` is a run of the queue from `q` if each operation is enabled in turn. */
  predicate IsRun(q: Queue, run: seq<Op>)
    decreases |run|
  {
    run == [] || (Enabled(q, run[0]) && IsRun(Apply(q, run[0]), run[1..]))
  }

  function After(q: Queue, run: seq<Op>): Queue
    requires IsRun(q, run)
    decreases |run|
  {
    if run == [] then q else After(Apply(q, run[0]), run[1..])
  }

  lemma StartHandsOutHead(q: Queue)
    requires q.head != []
    ensures StartOrdered(q).rq.Some? ==>
              StartOrdered(q).q.head != [] && StartOrdered(q).rq.value == StartOrdered(q).q.head[0]
    ensures StartOrdered(q).q.driver == q.driver
  {
    PushesOnly(Stashed(q), q.head[0].epoch);
    CompleteKeeps(QueueStages(Stashed(q), q.head[0].epoch), StartSkip(q), 0);
  }

  /** Stacking the stages changes the head of the queue only. */
  lemma PushesOnly(q: Queue, epoch: nat)
    ensures var q' := QueueStages(q, epoch); q' == q.(head := q'.head)
  {
  }

  lemma CompleteKeeps(q: Queue, bits: set<nat>, error: int)
    ensures var q' := CompleteSeq(q, bits, error);
            && q'.head == q.head && q'.driver == q.driver && q'.sorted == q.sorted && q'.inFlight == q.inFlight
            && q'.ordseq == if CurSeq(q.ordseq + bits) == DONE then {} else q.ordseq + bits
  {
  }

  /** What blk_do_ordered hands out is the request at the head. */
  lemma HandsOutHead(q: Queue)
    requires q.head != []
    ensures DoOrdered(q).rq.Some? ==> DoOrdered(q).q.head != [] && DoOrdered(q).rq.value == DoOrdered(q).q.head[0]
    ensures DoOrdered(q).q.driver == q.driver
  {
    StartHandsOutHead(q);
  }

  lemma {:induction false} RunThen(q: Queue, run: seq<Op>, op: Op)
    requires IsRun(q, run) && Enabled(After(q, run), op)
    ensures IsRun(q, run + [op]) && After(q, run + [op]) == Apply(After(q, run), op)
    decreases |run|
  {
    if run == [] {
      assert run + [op] == [op];
      assert [op][1..] == [];
    } else {
      assert (run + [op])[1..] == run[1..] + [op];
      RunThen(Apply(q, run[0]), run[1..], op);
    }
  }
}
