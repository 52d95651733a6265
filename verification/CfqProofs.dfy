/** At operation boundaries a CFQ queue is on the service tree iff it has requests iff it
    has a next_rq, the leftmost cache is right, and no empty queue is ever served. */
module CfqProofs {
  import opened Wrappers
  import opened Sequences
  import opened CfqModel

  lemma PutIs(l: seq<nat>, at: nat, x: nat)
    requires NoDup(l) && x !in l
    ensures var r := Put(l, at, x);
            && NoDup(r) && |r| == |l| + 1 && (forall y :: y in r <==> y in l || y == x)
            && (r[0] == x || (l != [] && r[0] == l[0]))
  {
    var r := Put(l, at, x);
    if at < |l| {
      assert l == l[..at] + l[at..];
      assert forall i :: 0 <= i < |r| ==> r[i] == if i < at then l[i] else if i == at then x else l[i - 1];
    }
  }

  // -------------------------------------------------------------- the service tree

  /** busy_queues counts the tree, and the cache is empty or the first. */
  ghost predicate TreeOk(s: Cfq) {
    NoDup(s.tree) && s.busy == |s.tree| && (s.left.Some? ==> s.tree != [] && s.left.value == s.tree[0])
  }

  lemma ErasedOk(s: Cfq, q: nat)
    requires TreeOk(s)
    ensures var s' := Erased(s, q);
            && TreeOk(s'.(busy := |s'.tree|)) && (forall x :: x in s'.tree <==> x in s.tree && x != q)
            && |s'.tree| == if q in s.tree then |s.tree| - 1 else |s.tree|
  {
    DropIs(s.tree, q);
  }

  lemma TreeAddOk(s: Cfq, q: nat, front: bool, at: Option<nat>)
    requires TreeOk(s.(busy := |s.tree|)) && (q in s.tree || at.Some?)
    ensures var s' := TreeAdd(s, q, front, at);
            && TreeOk(s'.(busy := |s'.tree|)) && (forall x :: x in s'.tree <==> x in s.tree || x == q)
            && |s'.tree| == if q in s.tree then |s.tree| else |s.tree| + 1
  {
    var s1 := if front then s.(left := First(s)) else s;
    if at.Some? {
      DropIs(s.tree, q);
      if q !in s.tree { DropAbsent(s.tree, q); }
      PutIs(Drop(s.tree, q), at.value, q);
    }
  }

  // ------------------------------------------------------------------- queues

  /** The queue's own structures agree. */
  ghost predicate QueueOk(o: Queue) {
    && NoDup(o.sort) && (forall r :: r in o.fifo <==> r in o.sort)
    && (o.next.Some? <==> o.sort != []) && (o.next.Some? ==> o.next.value in o.sort)
    && (o.onRr <==> o.sort != []) && (o.inPrio ==> o.onRr)
  }

  ghost predicate Valid(s: Cfq) {
    && TreeOk(s)
    && (forall q :: q in s.tree <==> q in s.queues && s.queues[q].onRr)
    && (forall q :: q in s.queues ==> QueueOk(s.queues[q]))
    && (s.active.Some? ==> s.active.value in s.queues)
  }

  /** cfq_find_next_rq finds another request if there is one. */
  lemma FindNextIs(sort: seq<nat>, r: nat, second: bool)
    requires NoDup(sort) && r in sort
    ensures var n := FindNext(sort, r, second);
            (n.Some? <==> |sort| > 1) && (n.Some? ==> n.value in sort && n.value != r)
  {
  }

  // ------------------------------------------------------- removing and dispatching

  /** Valid, up to queue q. */
  ghost predicate ValidBut(s: Cfq, q: nat) {
    && TreeOk(s) && q in s.queues
    && (forall x :: x in s.tree <==> x in s.queues && s.queues[x].onRr)
    && (forall x :: x in s.queues && x != q ==> QueueOk(s.queues[x]))
    && (s.active.Some? ==> s.active.value in s.queues)
  }

  lemma DelRrBut(s: Cfq, q: nat)
    requires ValidBut(s, q) && s.queues[q].onRr
    ensures ValidBut(DelRr(s, q), q) && DelRr(s, q).queues[q] == s.queues[q].(onRr := false, inPrio := false)
  {
    ErasedOk(s, q);
  }

  lemma RemovedBut(s: Cfq, q: nat, r: nat, next: Option<nat>)
    requires ValidBut(s, q)
    ensures var o, s' := s.queues[q], Removed(s, q, r, next);
            var gone := o.onRr && Drop(o.sort, r) == [];
            && ValidBut(s', q)
            && s'.queues[q] == Queue(Drop(o.sort, r), o.fifo - {r}, next, o.onRr && !gone, o.inPrio && !gone)
  {
    var o := s.queues[q];
    var s1 := s.(queues := s.queues[q := o.(sort := Drop(o.sort, r), fifo := o.fifo - {r}, next := next)]);
    if o.onRr && Drop(o.sort, r) == [] { DelRrBut(s1, q); }
  }

  lemma RemoveValid(s: Cfq, q: nat, r: nat, next: Option<nat>)
    requires Valid(s) && q in s.queues && r in s.queues[q].sort
    requires next.Some? <==> |s.queues[q].sort| > 1
    requires (next.Some? ==> next.value in s.queues[q].sort && next.value != r)
    ensures Valid(Removed(s, q, r, next)) && Removed(s, q, r, next).queues[q].sort == Drop(s.queues[q].sort, r)
  {
    RemovedBut(s, q, r, next);
    DropIs(s.queues[q].sort, r);
  }

  lemma OtherRemains(sort: seq<nat>, r: nat, x: nat)
    requires NoDup(sort) && r in sort && x in sort && x != r
    ensures |sort| > 1
  {
  }

  lemma RemoveRequestValid(s: Cfq, q: nat, r: nat, second: bool)
    requires Valid(s) && q in s.queues && r in s.queues[q].sort
    ensures Valid(RemoveRequest(s, q, r, second))
  {
    var o := s.queues[q];
    FindNextIs(o.sort, r, second);
    if o.next != Some(r) { OtherRemains(o.sort, r, o.next.value); }
    RemoveValid(s, q, r, if o.next == Some(r) then FindNext(o.sort, r, second) else o.next);
  }

  lemma DispatchInsertValid(s: Cfq, q: nat, r: nat, second: bool)
    requires Valid(s) && q in s.queues && r in s.queues[q].sort
    ensures Valid(DispatchInsert(s, q, r, second))
    ensures DispatchInsert(s, q, r, second).queues[q].sort == Drop(s.queues[q].sort, r)
  {
    FindNextIs(s.queues[q].sort, r, second);
    RemoveValid(s, q, r, FindNext(s.queues[q].sort, r, second));
  }

  // ------------------------------------------------------------------- adding

  lemma ResortBut(s: Cfq, q: nat, at: Option<nat>, found: bool)
    requires TreeOk(s.(busy := |s.tree|)) && s.busy == |s.tree| + (if q in s.tree then 0 else 1)
    requires q in s.queues && s.queues[q].onRr && (q in s.tree || at.Some?)
    requires forall x :: x in s.tree || x == q <==> x in s.queues && s.queues[x].onRr
    requires forall x :: x in s.queues && x != q ==> QueueOk(s.queues[x])
    requires (s.active.Some? ==> s.active.value in s.queues)
    ensures var s' := Resort(s, q, at, found);
            ValidBut(s', q) && s'.queues[q] == s.queues[q].(inPrio := s'.queues[q].inPrio) && s'.active == s.active
            && s'.queues[q].inPrio == (s.queues[q].next.Some? && !found)
  {
    TreeAddOk(s, q, false, at);
  }

  /** Rewriting queue q, its on_rr flag apart. */
  lemma RewriteBut(s: Cfq, q: nat, o: Queue)
    requires ValidBut(s, q) && o.onRr == s.queues[q].onRr
    ensures ValidBut(s.(queues := s.queues[q := o]), q)
  {
  }

  /** cfq_add_cfqq_rr for a queue that is not on the busy list. */
  lemma AddRrBut(s: Cfq, q: nat, at: nat, found: bool)
    requires ValidBut(s, q) && !s.queues[q].onRr
    ensures var s' := AddRr(s, q, at, found);
            ValidBut(s', q) && s'.queues[q] == s.queues[q].(onRr := true, inPrio := s'.queues[q].inPrio)
  {
    ResortBut(s.(queues := s.queues[q := s.queues[q].(onRr := true)], busy := s.busy + 1), q, Some(at), found);
  }

  lemma UnaliasedBut(s: Cfq, q: nat, e: Entry)
    requires ValidBut(s, q) && EntryOk(s, q, e)
    ensures var o, s' := s.queues[q], Unaliased(s, q, e);
            && ValidBut(s', q)
            && s'.queues[q].sort == (if e.alias.Some? then Drop(o.sort, e.alias.value) else o.sort)
            && s'.queues[q].fifo == (if e.alias.Some? then o.fifo - {e.alias.value} else o.fifo)
            && s'.queues[q].next == (if e.alias.Some? then FindNext(o.sort, e.alias.value, e.second) else o.next)
  {
    if e.alias.Some? { RemovedBut(s, q, e.alias.value, FindNext(s.queues[q].sort, e.alias.value, e.second)); }
  }

  lemma EnteredBut(s: Cfq, q: nat, r: nat, e: Entry)
    requires ValidBut(s, q)
    ensures var o, s' := s.queues[q], Entered(s, q, r, e);
            && ValidBut(s', q)
            && s'.queues[q] == Queue(Put(o.sort, e.at, r), o.fifo, o.next, true, s'.queues[q].inPrio)
  {
    var o := s.queues[q].(sort := Put(s.queues[q].sort, e.at, r));
    RewriteBut(s, q, o);
    if !o.onRr { AddRrBut(s.(queues := s.queues[q := o]), q, e.treeAt, e.found); }
  }

  /** cfq_add_rq_rb, for a request that is new or has just been lifted out. */
  lemma AddRqRbBut(s: Cfq, q: nat, r: nat, e: Entry)
    requires ValidBut(s, q) && EntryOk(s, q, e)
    ensures var o, s' := s.queues[q], AddRqRb(s, q, r, e);
            && ValidBut(s', q)
            && s'.queues[q]
               == Queue(Put(if e.alias.Some? then Drop(o.sort, e.alias.value) else o.sort, e.at, r),
                        if e.alias.Some? then o.fifo - {e.alias.value} else o.fifo,
                        Choose(if e.alias.Some? then FindNext(o.sort, e.alias.value, e.second) else o.next,
                               Some(r), e.better),
                        true, s'.queues[q].inPrio)
  {
    UnaliasedBut(s, q, e);
    EnteredBut(Unaliased(s, q, e), q, r, e);
    var s1 := Entered(Unaliased(s, q, e), q, r, e);
    RewriteBut(s1, q, Preferred(s1, q, r, e).queues[q]);
  }

  lemma SortIs(sort: seq<nat>, alias: Option<nat>, at: nat, r: nat)
    requires NoDup(sort) && r !in sort && (alias.Some? ==> alias.value in sort)
    ensures var l := Put(if alias.Some? then Drop(sort, alias.value) else sort, at, r);
            NoDup(l) && l != [] && forall y :: y in l <==> y == r || (y in sort && alias != Some(y))
  {
    if alias.Some? { DropIs(sort, alias.value); }
    PutIs(if alias.Some? then Drop(sort, alias.value) else sort, at, r);
  }

  /** next_rq after the addition is a request of the queue. */
  lemma NextIs(sort: seq<nat>, next: Option<nat>, r: nat, e: Entry)
    requires NoDup(sort) && r !in sort && (e.alias.Some? ==> e.alias.value in sort)
    requires next.Some? ==> next.value in sort || next.value == r
    ensures var n := Choose(if e.alias.Some? then FindNext(sort, e.alias.value, e.second) else next, Some(r), e.better);
            n.Some? && (n.value == r || (n.value in sort && e.alias != Some(n.value)))
  {
    if e.alias.Some? { FindNextIs(sort, e.alias.value, e.second); }
  }

  /** The queue after cfq_add_rq_rb, with the request in its fifo. */
  lemma EnteredOk(o: Queue, r: nat, e: Entry, o': Queue)
    requires NoDup(o.sort) && r !in o.sort && (e.alias.Some? ==> e.alias.value in o.sort)
    requires (o.next.Some? ==> o.next.value in o.sort || o.next.value == r) && o'.onRr
    requires o'.sort == Put(if e.alias.Some? then Drop(o.sort, e.alias.value) else o.sort, e.at, r)
    requires o'.next == Choose(if e.alias.Some? then FindNext(o.sort, e.alias.value, e.second) else o.next,
                               Some(r), e.better)
    requires forall x :: x in o'.fifo <==> x == r || (x in o.sort && e.alias != Some(x))
    ensures QueueOk(o')
  {
    SortIs(o.sort, e.alias, e.at, r);
    NextIs(o.sort, o.next, r, e);
  }

  lemma InsertValid(s: Cfq, q: nat, r: nat, e: Entry)
    requires Valid(s) && q in s.queues && EntryOk(s, q, e) && r !in s.queues[q].fifo
    ensures Valid(InsertRequest(s, q, r, e))
  {
    var o, s1 := s.queues[q], AddRqRb(s, q, r, e);
    assert QueueOk(o);
    AddRqRbBut(s, q, r, e);
    var o' := s1.queues[q].(fifo := s1.queues[q].fifo + {r});
    EnteredOk(o, r, e, o');
    RewriteBut(s1, q, o');
  }

  lemma RepositionValid(s: Cfq, q: nat, r: nat, e: Entry)
    requires Valid(s) && q in s.queues && r in s.queues[q].sort && EntryOk(Lifted(s, q, r), q, e)
    ensures Valid(Reposition(s, q, r, e))
  {
    var o := s.queues[q];
    var o1 := o.(sort := Drop(o.sort, r));
    DropIs(o.sort, r);
    RewriteBut(s, q, o1);
    AddRqRbBut(Lifted(s, q, r), q, r, e);
    EnteredOk(o1, r, e, Reposition(s, q, r, e).queues[q]);
  }

  // ------------------------------------------------------------ choosing a queue

  lemma ExpiredValid(s: Cfq, at: Option<nat>, found: bool)
    requires Valid(s)
    ensures Valid(SliceExpired(s, at, found)) && (forall q :: q in s.queues ==> q in SliceExpired(s, at, found).queues)
    ensures forall q :: q in s.queues ==> SliceExpired(s, at, found).queues[q].sort == s.queues[q].sort
  {
    if s.active.Some? && s.queues[s.active.value].onRr { ResortBut(s, s.active.value, at, found); }
  }

  lemma PreemptValid(s: Cfq, q: nat, at: Option<nat>, found: bool, frontAt: Option<nat>)
    requires Valid(s) && q in s.queues && s.queues[q].onRr
    ensures Valid(Preempt(s, q, at, found, frontAt))
  {
    ExpiredValid(s, at, found);
    var s1 := SliceExpired(s, at, found);
    assert q in s1.tree by { assert QueueOk(s1.queues[q]) && QueueOk(s.queues[q]); }
    TreeAddOk(s1, q, true, frontAt);
  }

  /** The cooperator comes from a prio tree. */
  ghost predicate ChoiceOk(s: Cfq, c: Choice) {
    c.close.Some? ==> c.close.value in s.queues && s.queues[c.close.value].inPrio
  }

  /** cfq_select_queue never chooses an empty queue. */
  lemma SelectValid(s: Cfq, c: Choice)
    requires Valid(s) && ChoiceOk(s, c)
    ensures var (s', q) := SelectQueue(s, c);
            && Valid(s') && (forall x :: x in s.queues ==> x in s'.queues && s'.queues[x].sort == s.queues[x].sort)
            && (q.Some? ==> q.value in s'.queues && s'.queues[q.value].sort != [])
  {
    ExpiredValid(s, c.at, c.found);
    var s1 := SliceExpired(s, c.at, c.found);
    if s1.tree != [] {
      assert s1.tree[0] in s1.tree;
      assert QueueOk(s1.queues[s1.tree[0]]);
    }
    if c.close.Some? { assert QueueOk(s.queues[c.close.value]); }
  }

  // ------------------------------------------------------------------ every run

  datatype Op =
    | NewQueue(q: nat)
    | FreeQueue(q: nat)
    | Insert(q: nat, r: nat, e: Entry)
    | FrontMerge(q: nat, r: nat, e: Entry)
    | MergeReqs(q: nat, gone: nat, second: bool)
    | DispatchRound(c: Choice, refused: bool, fifo: Option<nat>, second: bool)
    | ForceOne(second: bool)
    | Expire(at: Option<nat>, found: bool)
    | PreemptBy(q: nat, at: Option<nat>, found: bool, frontAt: Option<nat>)

  /** An entry of the fifo of the selected queue has expired. */
  ghost predicate Enabled(s: Cfq, op: Op)
    requires Valid(s)
  {
    match op
    case NewQueue(q) => q !in s.queues
    case FreeQueue(q) => q in s.queues && s.queues[q].sort == [] && s.active != Some(q)
    case Insert(q, r, e) => q in s.queues && EntryOk(s, q, e) && r !in s.queues[q].fifo
    case FrontMerge(q, r, e) => q in s.queues && r in s.queues[q].sort && EntryOk(Lifted(s, q, r), q, e)
    case MergeReqs(q, gone, _) => q in s.queues && gone in s.queues[q].sort
    case DispatchRound(c, _, fifo, _) =>
      var q := SelectQueue(s, c).1;
      ChoiceOk(s, c) && (fifo.Some? && q.Some? && q.value in s.queues ==> fifo.value in s.queues[q.value].fifo)
    case ForceOne(_) => First(s).Some?
    case Expire(_, _) => true
    case PreemptBy(q, _, _, _) => q in s.queues && s.queues[q].onRr
  }

  /** cfq_select_queue and cfq_dispatch_request; its BUG_ON is not reached.  `refused` is the
      answer of cfq_may_dispatch: the selected queue stays active and nothing is sent. */
  ghost function Round(s: Cfq, c: Choice, refused: bool, fifo: Option<nat>, second: bool): Cfq
    requires Valid(s) && Enabled(s, DispatchRound(c, refused, fifo, second))
  {
    SelectValid(s, c);
    var (s1, q) := SelectQueue(s, c);
    if q.None? || refused then s1
    else
      assert QueueOk(s1.queues[q.value]) && (q.value in s.queues ==> QueueOk(s.queues[q.value]));
      var r := if fifo.Some? && q.value in s.queues then fifo.value else s1.queues[q.value].next.value;
      DispatchInsert(s1, q.value, r, second)
  }

  lemma FirstIsBusy(s: Cfq)
    requires Valid(s) && First(s).Some?
    ensures First(s).value in s.queues && s.queues[First(s).value].next.Some?
    ensures s.queues[First(s).value].next.value in s.queues[First(s).value].sort
  {
    assert First(s).value in s.tree;
    assert QueueOk(s.queues[First(s).value]);
  }

  /** One turn of cfq_forced_dispatch: next_rq of the first queue on the service tree. */
  ghost function Forced(s: Cfq, second: bool): Cfq
    requires Valid(s) && First(s).Some?
  {
    FirstIsBusy(s);
    DispatchInsert(s, First(s).value, s.queues[First(s).value].next.value, second)
  }

  ghost function Apply(s: Cfq, op: Op): Cfq
    requires Valid(s) && Enabled(s, op)
  {
    match op
    case NewQueue(q) => s.(queues := s.queues[q := EMPTY_QUEUE])
    case FreeQueue(q) => s.(queues := s.queues - {q})
    case Insert(q, r, e) => InsertRequest(s, q, r, e)
    case FrontMerge(q, r, e) => Reposition(s, q, r, e)
    case MergeReqs(q, gone, second) => RemoveRequest(s, q, gone, second)
    case DispatchRound(c, refused, fifo, second) => Round(s, c, refused, fifo, second)
    case ForceOne(second) => Forced(s, second)
    case Expire(at, found) => SliceExpired(s, at, found)
    case PreemptBy(q, at, found, frontAt) => Preempt(s, q, at, found, frontAt)
  }

  lemma RoundValid(s: Cfq, c: Choice, refused: bool, fifo: Option<nat>, second: bool)
    requires Valid(s) && Enabled(s, DispatchRound(c, refused, fifo, second))
    ensures Valid(Round(s, c, refused, fifo, second))
  {
    SelectValid(s, c);
    var (s1, q) := SelectQueue(s, c);
    if q.Some? && !refused {
      assert QueueOk(s1.queues[q.value]) && (q.value in s.queues ==> QueueOk(s.queues[q.value]));
      var r := if fifo.Some? && q.value in s.queues then fifo.value else s1.queues[q.value].next.value;
      DispatchInsertValid(s1, q.value, r, second);
    }
  }

  lemma StepValid(s: Cfq, op: Op)
    requires Valid(s) && Enabled(s, op)
    ensures Valid(Apply(s, op))
  {
    match op
    case NewQueue(q) =>
    case FreeQueue(q) => assert QueueOk(s.queues[q]);
    case Insert(q, r, e) => InsertValid(s, q, r, e);
    case FrontMerge(q, r, e) => RepositionValid(s, q, r, e);
    case MergeReqs(q, gone, second) => RemoveRequestValid(s, q, gone, second);
    case DispatchRound(c, refused, fifo, second) => RoundValid(s, c, refused, fifo, second);
    case ForceOne(second) =>
      FirstIsBusy(s);
      DispatchInsertValid(s, First(s).value, s.queues[First(s).value].next.value, second);
    case Expire(at, found) => ExpiredValid(s, at, found);
    case PreemptBy(q, at, found, frontAt) => PreemptValid(s, q, at, found, frontAt);
  }

  ghost predicate Reaches(s: Cfq, run: seq<Op>, s': Cfq)
    requires Valid(s)
    decreases |run|
  {
    if run == [] then s' == s
    else
      Enabled(s, run[0]) &&
      (StepValid(s, run[0]);
       Reaches(Apply(s, run[0]), run[1..], s'))
  }

  lemma InitValid()
    ensures Valid(Init())
  {
  }

  /** In every reachable state the structures agree, and whichever queue is selected has a
      request. */
  lemma {:induction false} StructuresAgree(s: Cfq, run: seq<Op>, s': Cfq, c: Choice)
    requires Valid(s) && Reaches(s, run, s') && ChoiceOk(s', c)
    ensures Valid(s')
    ensures var q := SelectQueue(s', c).1; q.Some? ==> q.value in s'.queues && s'.queues[q.value].sort != []
    decreases |run|
  {
    if run != [] {
      StepValid(s, run[0]);
      StructuresAgree(Apply(s, run[0]), run[1..], s', c);
    } else {
      SelectValid(s', c);
    }
  }
}
