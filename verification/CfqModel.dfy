/** The queues of block/cfq-iosched.c.  Requests are known by ids; a queue's sort_list is
    the sequence of its requests in sector order.  Seek costs, keys and timing enter as
    choices. */
module CfqModel {
  import opened Wrappers
  import opened Sequences

  /** cfq_queue: sort_list, fifo, next_rq, the on_rr flag, and whether it is on a prio
      tree. */
  datatype Queue = Queue(sort: seq<nat>, fifo: set<nat>, next: Option<nat>, onRr: bool, inPrio: bool)

  /** cfq_data: the queues, the service tree in order with its leftmost cache,
      busy_queues and active_queue. */
  datatype Cfq = Cfq(queues: map<nat, Queue>, tree: seq<nat>, left: Option<nat>, busy: int, active: Option<nat>)

  const EMPTY_QUEUE := Queue([], {}, None, false, false)

  function Init(): Cfq { Cfq(map[], [], None, 0, None) }

  // -------------------------------------------------------------- sequences of ids

  /** Inserted at a position, or at the end. */
  function Put(l: seq<nat>, at: nat, x: nat): seq<nat> {
    if at < |l| then l[..at] + [x] + l[at..] else l + [x]
  }

  function IndexOf(l: seq<nat>, x: nat): (i: nat)
    requires x in l
    ensures i < |l| && l[i] == x
  {
    if l[0] == x then 0 else 1 + IndexOf(l[1..], x)
  }

  // ------------------------------------------------------------ the service tree

  /** cfq_rb_first: the cache is filled if it is empty. */
  function First(s: Cfq): Option<nat> {
    if s.left.Some? then s.left else if s.tree == [] then None else Some(s.tree[0])
  }

  /** cfq_rb_erase. */
  function Erased(s: Cfq, q: nat): Cfq {
    s.(tree := Drop(s.tree, q), left := if s.left == Some(q) then None else s.left)
  }

  /** cfq_service_tree_add: the walk down the tree ends at position `at`; None stands for
      a queue whose key has not changed.  Adding at the front reads cfq_rb_first. */
  function TreeAdd(s: Cfq, q: nat, front: bool, at: Option<nat>): Cfq {
    var s1 := if front then s.(left := First(s)) else s;
    if at.None? then s1
    else
      var s2 := if q in s1.tree then Erased(s1, q) else s1;
      var tree := Put(s2.tree, at.value, q);
      s2.(tree := tree, left := if tree[0] == q then Some(q) else s2.left)
  }

  /** cfq_prio_tree_add; `found` says that another queue is at the same sector or that the
      class is idle. */
  function PrioAdd(s: Cfq, q: nat, found: bool): Cfq
    requires q in s.queues
  {
    s.(queues := s.queues[q := s.queues[q].(inPrio := s.queues[q].next.Some? && !found)])
  }

  /** cfq_resort_rr_list. */
  function Resort(s: Cfq, q: nat, at: Option<nat>, found: bool): Cfq
    requires q in s.queues
  {
    if s.queues[q].onRr then PrioAdd(TreeAdd(s, q, false, at), q, found) else s
  }

  /** cfq_add_cfqq_rr. */
  function AddRr(s: Cfq, q: nat, at: nat, found: bool): Cfq
    requires q in s.queues
  {
    var s1 := s.(queues := s.queues[q := s.queues[q].(onRr := true)], busy := s.busy + 1);
    Resort(s1, q, Some(at), found)
  }

  /** cfq_del_cfqq_rr. */
  function DelRr(s: Cfq, q: nat): Cfq
    requires q in s.queues
  {
    Erased(s.(queues := s.queues[q := s.queues[q].(onRr := false, inPrio := false)], busy := s.busy - 1), q)
  }

  // ----------------------------------------------------------------- requests

  /** cfq_choose_req: one of the two if there is one; `second` stands for the seek costs. */
  function Choose(a: Option<nat>, b: Option<nat>, second: bool): Option<nat> {
    if a.None? then b else if b.None? then a else if second then b else a
  }

  /** cfq_find_next_rq: the neighbours in sector order, wrapping at the end. */
  function FindNext(sort: seq<nat>, r: nat, second: bool): Option<nat>
    requires r in sort
  {
    var i := IndexOf(sort, r);
    var next := if i + 1 < |sort| then Some(sort[i + 1]) else if i > 0 then Some(sort[0]) else None;
    var prev := if i > 0 then Some(sort[i - 1]) else None;
    Choose(next, prev, second)
  }

  /** cfq_remove_request with next_rq already given: the queue leaves the busy list when it
      runs empty. */
  function Removed(s: Cfq, q: nat, r: nat, next: Option<nat>): Cfq
    requires q in s.queues
  {
    var o := s.queues[q];
    var s1 := s.(queues := s.queues[q := o.(sort := Drop(o.sort, r), fifo := o.fifo - {r}, next := next)]);
    if o.onRr && Drop(o.sort, r) == [] then DelRr(s1, q) else s1
  }

  /** cfq_remove_request. */
  function RemoveRequest(s: Cfq, q: nat, r: nat, second: bool): Cfq
    requires q in s.queues && r in s.queues[q].sort
  {
    var o := s.queues[q];
    Removed(s, q, r, if o.next == Some(r) then FindNext(o.sort, r, second) else o.next)
  }

  /** cfq_dispatch_insert. */
  function DispatchInsert(s: Cfq, q: nat, r: nat, second: bool): Cfq
    requires q in s.queues && r in s.queues[q].sort
  {
    Removed(s, q, r, FindNext(s.queues[q].sort, r, second))
  }

  /** How a request enters its queue: an alias at its sector, where it goes in the
      sort_list, where the queue goes in the service tree, and the choices. */
  datatype Entry = Entry(alias: Option<nat>, at: nat, treeAt: nat, found: bool, second: bool, better: bool)

  /** An alias is dispatched first. */
  function Unaliased(s: Cfq, q: nat, e: Entry): Cfq
    requires q in s.queues && EntryOk(s, q, e)
  {
    if e.alias.Some? then DispatchInsert(s, q, e.alias.value, e.second) else s
  }

  /** The request goes into the sort_list and the queue on the busy list. */
  function Entered(s: Cfq, q: nat, r: nat, e: Entry): Cfq
    requires q in s.queues
  {
    var o := s.queues[q];
    var s1 := s.(queues := s.queues[q := o.(sort := Put(o.sort, e.at, r))]);
    if o.onRr then s1 else AddRr(s1, q, e.treeAt, e.found)
  }

  /** next_rq is chosen again, and the prio tree follows. */
  function Preferred(s: Cfq, q: nat, r: nat, e: Entry): Cfq
    requires q in s.queues
  {
    var o := s.queues[q];
    var next := Choose(o.next, Some(r), e.better);
    s.(queues := s.queues[q := o.(next := next, inPrio := if next == o.next then o.inPrio else !e.found)])
  }

  /** cfq_add_rq_rb. */
  function AddRqRb(s: Cfq, q: nat, r: nat, e: Entry): Cfq
    requires q in s.queues && EntryOk(s, q, e)
  {
    Preferred(Entered(Unaliased(s, q, e), q, r, e), q, r, e)
  }

  /** The alias is a request of the queue. */
  predicate EntryOk(s: Cfq, q: nat, e: Entry)
    requires q in s.queues
  {
    e.alias.Some? ==> e.alias.value in s.queues[q].sort
  }

  /** cfq_insert_request, up to what cfq_rq_enqueued may preempt. */
  function InsertRequest(s: Cfq, q: nat, r: nat, e: Entry): Cfq
    requires q in s.queues && EntryOk(s, q, e)
  {
    var s1 := AddRqRb(s, q, r, e);
    s1.(queues := s1.queues[q := s1.queues[q].(fifo := s1.queues[q].fifo + {r})])
  }

  /** cfq_reposition_rq_rb, after a front merge. */
  function Reposition(s: Cfq, q: nat, r: nat, e: Entry): Cfq
    requires q in s.queues && EntryOk(Lifted(s, q, r), q, e)
  {
    AddRqRb(Lifted(s, q, r), q, r, e)
  }

  /** elv_rb_del alone: next_rq and the busy list do not notice. */
  function Lifted(s: Cfq, q: nat, r: nat): Cfq
    requires q in s.queues
  {
    s.(queues := s.queues[q := s.queues[q].(sort := Drop(s.queues[q].sort, r))])
  }

  // ------------------------------------------------------------ choosing a queue

  /** cfq_slice_expired. */
  function SliceExpired(s: Cfq, at: Option<nat>, found: bool): Cfq
    requires s.active.Some? ==> s.active.value in s.queues
  {
    if s.active.None? then s else Resort(s, s.active.value, at, found).(active := None)
  }

  /** cfq_preempt_queue. */
  function Preempt(s: Cfq, q: nat, at: Option<nat>, found: bool, frontAt: Option<nat>): Cfq
    requires s.active.Some? ==> s.active.value in s.queues
  {
    TreeAdd(SliceExpired(s, at, found), q, true, frontAt)
  }

  /** What cfq_select_queue is told: the slice is used up, the active queue may wait for
      more requests, a close cooperator from the prio trees, and where the expired queue
      goes. */
  datatype Choice = Choice(used: bool, waits: bool, close: Option<nat>, at: Option<nat>, found: bool)

  /** cfq_select_queue. */
  function SelectQueue(s: Cfq, c: Choice): (Cfq, Option<nat>)
    requires s.active.Some? ==> s.active.value in s.queues
  {
    if s.active.Some? && !c.used && s.queues[s.active.value].sort != [] then (s, s.active)
    else
      var coop := if s.active.Some? && !c.used then c.close else None;
      if s.active.Some? && !c.used && coop.None? && c.waits then (s, None)
      else
        var s1 := SliceExpired(s, c.at, c.found);
        var q := if coop.Some? then coop else if s1.tree == [] then None else First(s1);
        var s2 := if coop.Some? || s1.tree == [] then s1 else s1.(left := First(s1));
        (s2.(active := q), q)
  }
}
