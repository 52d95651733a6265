/** cfq_data as an object: the forced drain, and the links between cooperating queues. */
module CfqQueue {
  import opened Wrappers
  import opened Sequences
  import opened CfqModel
  import opened CfqProofs

  class CfqData {
    var queues: map<nat, Queue>
    var tree: seq<nat>
    var left: Option<nat>
    var busy: int
    var active: Option<nat>

    ghost function View(): Cfq
      reads this
    {
      Cfq(queues, tree, left, busy, active)
    }

    /** cfq_rb_first: the in-order first queue, from the cache if it is filled. */
    method RbFirst() returns (q: Option<nat>)
      requires TreeOk(View())
      modifies this`left
      ensures left == First(old(View())) && q == left && TreeOk(View())
      ensures q == if tree == [] then None else Some(tree[0])
    {
      if left.None? && tree != [] {
        left := Some(tree[0]);
      }
      q := left;
    }

    /** cfq_del_cfqq_rr. */
    method DelCfqqRr(q: nat)
      requires q in queues
      modifies this`queues, this`tree, this`left, this`busy
      ensures View() == DelRr(old(View()), q)
    {
      queues := queues[q := queues[q].(onRr := false, inPrio := false)];
      if left == Some(q) {
        left := None;
      }
      tree := Drop(tree, q);
      busy := busy - 1;
    }

    /** cfq_dispatch_insert; `second` stands for the seek costs.  The request leaves its queue,
        other queues keep theirs, and the structures agree again. */
    method DispatchInsert(q: nat, r: nat, second: bool)
      requires q in queues && r in queues[q].sort
      modifies this`queues, this`tree, this`left, this`busy
      ensures View() == CfqModel.DispatchInsert(old(View()), q, r, second)
      ensures old(Valid(View())) ==>
                && Valid(View()) && queues.Keys == old(queues).Keys && queues[q].fifo == old(queues)[q].fifo - {r}
                && forall x :: x in queues && x != q ==> queues[x] == old(queues)[x]
    {
      if Valid(View()) {
        DispatchStep(View(), q, r, second);
      }
      var o := queues[q];
      var sort := Drop(o.sort, r);
      queues := queues[q := o.(sort := sort, fifo := o.fifo - {r}, next := FindNext(o.sort, r, second))];
      if o.onRr && sort == [] {
        DelCfqqRr(q);
      }
    }

    /** __cfq_forced_dispatch_cfqq: the queue runs empty, its fifo with it. */
    method ForcedDispatchQueue(q: nat, seeks: nat -> bool) returns (dispatched: nat)
      requires Valid(View()) && q in queues
      modifies this`queues, this`tree, this`left, this`busy
      ensures Valid(View()) && queues.Keys == old(queues).Keys && q !in tree && tree == Drop(old(tree), q)
      ensures queues[q].sort == [] && queues[q].fifo == {} && dispatched == |old(queues)[q].sort|
      ensures forall x :: x in queues && x != q ==> queues[x] == old(queues)[x]
    {
      dispatched := 0;
      DropIs(tree, q);
      assert QueueOk(queues[q]);
      if queues[q].sort == [] { DropAbsent(tree, q); }
      while queues[q].next.Some?
        invariant Valid(View()) && q in queues && queues.Keys == old(queues).Keys
        invariant dispatched + |queues[q].sort| == |old(queues)[q].sort|
        invariant tree == if queues[q].sort == [] then Drop(old(tree), q) else old(tree)
        invariant forall x :: x in queues && x != q ==> queues[x] == old(queues)[x]
        decreases |queues[q].sort|
      {
        var r := queues[q].next.value;
        DispatchStep(View(), q, r, seeks(r));
        DispatchInsert(q, r, seeks(r));
        dispatched := dispatched + 1;
      }
    }

    /** cfq_forced_dispatch: it ends, with every queue empty and none busy. */
    method ForcedDispatch(seeks: nat -> bool) returns (dispatched: nat)
      requires Valid(View())
      modifies this
      ensures Valid(View()) && tree == [] && busy == 0 && active.None? && queues.Keys == old(queues).Keys
      ensures forall q :: q in queues ==> queues[q].sort == [] && queues[q].fifo == {}
    {
      dispatched := 0;
      var first := RbFirst();
      while first.Some?
        invariant Valid(View()) && queues.Keys == old(queues).Keys
        invariant first == if tree == [] then None else Some(tree[0])
        decreases |tree|
      {
        assert tree[0] in tree;
        DropIs(tree, tree[0]);
        var n := ForcedDispatchQueue(first.value, seeks);
        dispatched := dispatched + n;
        first := RbFirst();
      }
      active := None;
      forall q | q in queues ensures queues[q].sort == [] && queues[q].fifo == {} { assert QueueOk(queues[q]); }
    }
  }

  lemma DispatchStep(s: Cfq, q: nat, r: nat, second: bool)
    requires Valid(s) && q in s.queues && r in s.queues[q].sort
    ensures var s' := CfqModel.DispatchInsert(s, q, r, second);
            && Valid(s') && s'.queues.Keys == s.queues.Keys && |s'.queues[q].sort| == |s.queues[q].sort| - 1
            && s'.tree == (if s'.queues[q].sort == [] then Drop(s.tree, q) else s.tree)
            && s'.queues[q].fifo == s.queues[q].fifo - {r}
            && forall x :: x in s.queues && x != q ==> s'.queues[x] == s.queues[x]
  {
    assert QueueOk(s.queues[q]);
    DispatchInsertValid(s, q, r, second);
    DropIs(s.queues[q].sort, r);
  }

  // ------------------------------------------------------------- merge chains

  /** All new_cfqq links lead forward in the order. */
  ghost predicate Forward(links: map<nat, nat>, order: seq<nat>) {
    NoDup(order) && forall q :: q in links ==> Precedes(order, q, links[q])
  }

  /** The queue k links on from q, if the chain is that long. */
  function Follow(links: map<nat, nat>, q: nat, k: nat): Option<nat>
    decreases k
  {
    if k == 0 then Some(q) else if q !in links then None else Follow(links, links[q], k - 1)
  }

  /** Forward links have no cycle. */
  lemma {:induction false} NoCycle(links: map<nat, nat>, order: seq<nat>, q: nat, k: nat)
    requires Forward(links, order) && q in order && Follow(links, q, k).Some?
    ensures var x := Follow(links, q, k).value;
            x in order && (k > 0 ==> IndexOf(order, x) > IndexOf(order, q) && x != q)
    decreases k
  {
    if k > 0 { NoCycle(links, order, links[q], k - 1); }
  }

  /** a comes before b. */
  ghost predicate Precedes(order: seq<nat>, a: nat, b: nat) {
    a in order && b in order && IndexOf(order, a) < IndexOf(order, b)
  }

  lemma MovedNoDup(order: seq<nat>, b: nat)
    requires NoDup(order) && b in order
    ensures NoDup(Drop(order, b) + [b]) && forall x :: x in Drop(order, b) + [b] <==> x in order
  {
    DropIs(order, b);
  }

  /** Two chain ends can be linked: the target moves to the end of the order. */
  lemma LinkEnds(links: map<nat, nat>, order: seq<nat>, a: nat, b: nat)
    requires Forward(links, order) && a in order && b in order && a != b && a !in links && b !in links
    ensures Forward(links[a := b], Drop(order, b) + [b])
  {
    var o := Drop(order, b) + [b];
    MovedNoDup(order, b);
    BeforeLast(order, b, a);
    forall q | q in links ensures Precedes(o, q, links[q]) {
      if links[q] == b { BeforeLast(order, b, q); } else { MovedOrder(order, b, q, links[q]); }
    }
  }

  lemma BeforeLast(order: seq<nat>, b: nat, x: nat)
    requires NoDup(order) && x in order && b in order && x != b
    ensures Precedes(Drop(order, b) + [b], x, b)
  {
    var d := Drop(order, b);
    DropIs(order, b);
    PrefixIndex(d, [b], x);
    IndexIs(d + [b], b, |d|);
  }

  lemma {:induction false} IndexIs(l: seq<nat>, x: nat, i: nat)
    requires NoDup(l) && i < |l| && l[i] == x
    ensures IndexOf(l, x) == i
  {
  }

  /** Moving b to the end leaves the others in order. */
  lemma {:induction false} MovedOrder(order: seq<nat>, b: nat, x: nat, y: nat)
    requires NoDup(order) && x != b && y != b && Precedes(order, x, y)
    ensures Precedes(Drop(order, b) + [b], x, y)
  {
    var d := Drop(order, b);
    DropIs(order, b);
    assert x in d && y in d;
    if order[0] == b {
      assert d == order[1..];
      PrefixIndex(d, [b], x);
      PrefixIndex(d, [b], y);
    } else if order[0] != x {
      assert order[1..][IndexOf(order, x) - 1] == x && order[1..][IndexOf(order, y) - 1] == y;
      MovedOrder(order[1..], b, x, y);
      assert (d + [b])[1..] == Drop(order[1..], b) + [b];
    } else {
      assert (d + [b])[0] == x;
    }
  }

  lemma {:induction false} PrefixIndex(l: seq<nat>, m: seq<nat>, x: nat)
    requires x in l
    ensures x in l + m && IndexOf(l + m, x) == IndexOf(l, x)
  {
    if l[0] != x {
      assert (l + m)[1..] == l[1..] + m;
      PrefixIndex(l[1..], m, x);
    }
  }

  class MergeLinks {
    var newCfqq: map<nat, nat>
    ghost var order: seq<nat>

    ghost predicate Valid()
      reads this
    {
      Forward(newCfqq, order)
    }

    /** No queue is there yet. */
    constructor ()
      ensures Valid() && order == [] && newCfqq == map[]
    {
      newCfqq, order := map[], [];
    }

    /** cfq_find_alloc_queue: a new queue has no link, and none leads to it. */
    method NewQueue(q: nat)
      requires Valid() && q !in order
      modifies this
      ensures Valid() && order == old(order) + [q] && newCfqq == old(newCfqq)
      ensures q !in newCfqq && forall x :: x in newCfqq ==> newCfqq[x] != q
    {
      forall x | x in newCfqq ensures Precedes(order + [q], x, newCfqq[x]) {
        PrefixIndex(order, [q], x);
        PrefixIndex(order, [q], newCfqq[x]);
      }
      order := order + [q];
    }

    /** cfq_setup_merge for a queue that has no link yet; `refs` are the process
        references.  The walk ends, and at most one link between two chain ends is
        added, so the links stay free of cycles. */
    method SetupMerge(cfqq: nat, target: nat, refs: nat -> nat) returns (linked: bool, a: nat, b: nat)
      requires Valid() && cfqq in order && target in order && cfqq != target && cfqq !in newCfqq
      modifies this
      ensures Valid() && (forall q :: q in order <==> q in old(order))
      ensures newCfqq == if linked then old(newCfqq)[a := b] else old(newCfqq)
      ensures linked ==> a !in old(newCfqq) && b !in old(newCfqq) && a != b && cfqq in {a, b} && 0 < refs(a) <= refs(b)
    {
      linked, a, b := false, cfqq, target;
      if refs(target) == 0 {
        return;
      }
      var end := target;
      while end in newCfqq
        invariant end in order && end != cfqq
        decreases |order| - IndexOf(order, end)
      {
        if newCfqq[end] == cfqq {
          return;
        }
        end := newCfqq[end];
      }
      if refs(cfqq) == 0 || refs(end) == 0 {
        return;
      }
      linked, b := true, end;
      if refs(end) < refs(cfqq) {
        a, b := end, cfqq;
      }
      LinkEnds(newCfqq, order, a, b);
      DropIs(order, b);
      newCfqq := newCfqq[a := b];
      order := Drop(order, b) + [b];
    }

    /** The walk of cfq_exit_cfqq along the chain: it ends without meeting the queue it
        started from. */
    method WalkChain(cfqq: nat) returns (chain: seq<nat>)
      requires Valid() && cfqq in order
      ensures cfqq !in chain && forall i :: 0 <= i < |chain| ==> Follow(newCfqq, cfqq, i + 1) == Some(chain[i])
      ensures Follow(newCfqq, cfqq, |chain| + 1).None?
    {
      var at := cfqq;
      chain := [];
      while at in newCfqq
        invariant at in order && Follow(newCfqq, cfqq, |chain|) == Some(at)
        invariant cfqq !in chain && forall i :: 0 <= i < |chain| ==> Follow(newCfqq, cfqq, i + 1) == Some(chain[i])
        decreases |order| - IndexOf(order, at)
      {
        FollowOn(newCfqq, cfqq, |chain|);
        NoCycle(newCfqq, order, cfqq, |chain| + 1);
        at := newCfqq[at];
        chain := chain + [at];
      }
      FollowOn(newCfqq, cfqq, |chain|);
    }
  }

  lemma {:induction false} FollowOn(links: map<nat, nat>, q: nat, k: nat)
    requires Follow(links, q, k).Some?
    ensures var x := Follow(links, q, k).value;
            Follow(links, q, k + 1) == if x in links then Some(links[x]) else None
    decreases k
  {
    if k > 0 { FollowOn(links, links[q], k - 1); }
  }
}
