/** The deadline scheduler, block/deadline-iosched.c, as functions on values.  A
    request is known by its id; the sorted tree is a sequence ordered by sector, and
    the fifo holds the expiry times. */
module DeadlineModel {
  import opened Wrappers

  datatype Node = Node(id: nat, pos: nat)

  datatype Tick = Tick(id: nat, time: nat)

  /** One direction: sort_list, fifo_list, next_rq. */
  datatype Lane = Lane(tree: seq<Node>, fifo: seq<Tick>, next: Option<nat>)

  /** deadline_data with q->nr_sorted, the clock, and the ids put on the dispatch
      queue so far. */
  datatype Deadline = Deadline(read: Lane, write: Lane, batching: nat, starved: nat,
                               now: nat, nrSorted: int, sent: seq<nat>)

  /** The tunables. */
  datatype Config = Config(fifoBatch: nat, writesStarved: nat, readExpire: nat, writeExpire: nat)

  const EMPTY_LANE := Lane([], [], None)

  function Init(): Deadline { Deadline(EMPTY_LANE, EMPTY_LANE, 0, 0, 0, 0, []) }

  function LaneOf(s: Deadline, write: bool): Lane { if write then s.write else s.read }

  function WithLane(s: Deadline, write: bool, l: Lane): Deadline { if write then s.(write := l) else s.(read := l) }

  function Expire(c: Config, write: bool): nat { if write then c.writeExpire else c.readExpire }

  // -------------------------------------------------------------- tree and fifo

  /** The request already at this sector. */
  function Alias(t: seq<Node>, pos: nat): Option<nat> {
    if t == [] then None else if t[0].pos == pos then Some(t[0].id) else Alias(t[1..], pos)
  }

  function InsertNode(t: seq<Node>, n: Node): seq<Node> {
    if t == [] then [n] else if n.pos < t[0].pos then [n] + t else [t[0]] + InsertNode(t[1..], n)
  }

  function RemoveNode(t: seq<Node>, id: nat): seq<Node> {
    if t == [] then [] else if t[0].id == id then t[1..] else [t[0]] + RemoveNode(t[1..], id)
  }

  /** deadline_latter_request. */
  function Latter(t: seq<Node>, id: nat): Option<nat> {
    if |t| < 2 then None else if t[0].id == id then Some(t[1].id) else Latter(t[1..], id)
  }

  function RemoveTick(f: seq<Tick>, id: nat): seq<Tick> {
    if f == [] then [] else if f[0].id == id then f[1..] else [f[0]] + RemoveTick(f[1..], id)
  }

  function TimeOf(f: seq<Tick>, id: nat): nat {
    if f == [] then 0 else if f[0].id == id then f[0].time else TimeOf(f[1..], id)
  }

  function InsertAfter(f: seq<Tick>, id: nat, t: Tick): seq<Tick> {
    if f == [] then [] else if f[0].id == id then [f[0], t] + f[1..] else [f[0]] + InsertAfter(f[1..], id, t)
  }

  // --------------------------------------------------------------- the operations

  /** deadline_move_request. */
  function MoveRequest(s: Deadline, write: bool, id: nat): Deadline {
    var l := LaneOf(s, write);
    var l' := Lane(RemoveNode(l.tree, id), RemoveTick(l.fifo, id), Latter(l.tree, id));
    Deadline(if write then s.read.(next := None) else l', if write then l' else s.write.(next := None),
             s.batching, s.starved, s.now, s.nrSorted - 1, s.sent + [id])
  }

  /** deadline_add_rq_rb: an alias is dispatched to make room. */
  function AddNode(s: Deadline, write: bool, n: Node): Deadline {
    var alias := Alias(LaneOf(s, write).tree, n.pos);
    var s1 := if alias.Some? then MoveRequest(s, write, alias.value) else s;
    var l := LaneOf(s1, write);
    WithLane(s1, write, l.(tree := InsertNode(l.tree, n)))
  }

  /** deadline_add_request, with the elevator's count. */
  function AddRequest(c: Config, s: Deadline, write: bool, n: Node): Deadline {
    var s1 := AddNode(s, write, n);
    var tick := Tick(n.id, s.now + Expire(c, write));
    var l := LaneOf(s1, write);
    WithLane(s1, write, l.(fifo := l.fifo + [tick])).(nrSorted := s1.nrSorted + 1)
  }

  /** deadline_merged_request for a front merge that moved `id` to a new sector. */
  function FrontMerged(s: Deadline, write: bool, n: Node): Deadline {
    var l := LaneOf(s, write);
    AddNode(WithLane(s, write, l.(tree := RemoveNode(l.tree, n.id))), write, n)
  }

  /** The fifo part of deadline_merged_requests. */
  function MergedFifo(f: seq<Tick>, id: nat, gone: nat): seq<Tick> {
    var f1 := if TimeOf(f, gone) < TimeOf(f, id)
              then InsertAfter(RemoveTick(f, id), gone, Tick(id, TimeOf(f, gone))) else f;
    RemoveTick(f1, gone)
  }

  /** deadline_merged_requests: `gone` is absorbed by `id`. */
  function MergedLane(l: Lane, id: nat, gone: nat): Lane {
    Lane(RemoveNode(l.tree, gone), MergedFifo(l.fifo, id, gone),
         if l.next == Some(gone) then Latter(l.tree, gone) else l.next)
  }

  function MergedRequests(s: Deadline, write: bool, id: nat, gone: nat): Deadline {
    WithLane(s, write, MergedLane(LaneOf(s, write), id, gone)).(nrSorted := s.nrSorted - 1)
  }

  /** What one dispatch call did. */
  datatype Outcome = Idle | Sent(write: bool, id: nat)

  /** deadline_check_fifo. */
  predicate CheckFifo(s: Deadline, write: bool)
    requires LaneOf(s, write).fifo != []
  {
    s.now > LaneOf(s, write).fifo[0].time
  }

  /** dispatch_find_request: where a new batch starts. */
  function BatchStart(s: Deadline, write: bool): nat
    requires LaneOf(s, write).fifo != []
  {
    var l := LaneOf(s, write);
    if CheckFifo(s, write) || l.next.None? then l.fifo[0].id else l.next.value
  }

  /** The request deadline_dispatch_requests selects. */
  function Selected(c: Config, s: Deadline): Outcome {
    if s.batching < c.fifoBatch && s.write.next.Some? then Sent(true, s.write.next.value)
    else if s.batching < c.fifoBatch && s.read.next.Some? then Sent(false, s.read.next.value)
    else if s.read.fifo != [] && !(s.write.fifo != [] && s.starved >= c.writesStarved) then
      Sent(false, BatchStart(s, false))
    else if s.write.fifo != [] then Sent(true, BatchStart(s, true))
    else Idle
  }

  predicate Continues(c: Config, s: Deadline) {
    s.batching < c.fifoBatch && (s.write.next.Some? || s.read.next.Some?)
  }

  /** The batch and starvation counters after deadline_dispatch_requests. */
  function Counted(c: Config, s: Deadline): Deadline {
    if Continues(c, s) then s.(batching := s.batching + 1)
    else
      match Selected(c, s)
      case Idle => s
      case Sent(true, _) => s.(batching := 1, starved := 0)
      case Sent(false, _) => s.(batching := 1, starved := if s.write.fifo != [] then s.starved + 1 else s.starved)
  }

  function Dispatch(c: Config, s: Deadline): Deadline {
    match Selected(c, s)
    case Idle => s
    case Sent(write, id) => MoveRequest(Counted(c, s), write, id)
  }

  // ------------------------------------------------------------------ runs

  datatype Op =
    | Pass(jiffies: nat)
    | Add(write: bool, n: Node)
    | FrontMerge(write: bool, n: Node)
    | MergeReqs(write: bool, id: nat, gone: nat)
    | DispatchOne

  function TreeIds(t: seq<Node>): set<nat> {
    if t == [] then {} else {t[0].id} + TreeIds(t[1..])
  }

  function FifoIds(f: seq<Tick>): set<nat> {
    if f == [] then {} else {f[0].id} + FifoIds(f[1..])
  }

  predicate Enabled(s: Deadline, op: Op) {
    match op
    case Pass(_) => true
    case Add(_, n) => n.id !in TreeIds(s.read.tree) && n.id !in TreeIds(s.write.tree) && n.id !in s.sent
    case FrontMerge(w, n) => n.id in TreeIds(LaneOf(s, w).tree)
    case MergeReqs(w, id, gone) =>
      id in TreeIds(LaneOf(s, w).tree) && gone in TreeIds(LaneOf(s, w).tree) && id != gone
    case DispatchOne => true
  }

  function Apply(c: Config, s: Deadline, op: Op): Deadline {
    match op
    case Pass(j) => s.(now := s.now + j)
    case Add(w, n) => AddRequest(c, s, w, n)
    case FrontMerge(w, n) => FrontMerged(s, w, n)
    case MergeReqs(w, id, gone) => MergedRequests(s, w, id, gone)
    case DispatchOne => Dispatch(c, s)
  }

  predicate IsRun(c: Config, s: Deadline, run: seq<Op>)
    decreases |run|
  {
    run != [] ==> Enabled(s, run[0]) && IsRun(c, Apply(c, s, run[0]), run[1..])
  }

  function After(c: Config, s: Deadline, run: seq<Op>): Deadline
    decreases |run|
  {
    if run == [] then s else After(c, Apply(c, s, run[0]), run[1..])
  }
}
