/** generic_make_request of block/blk-core.c: nested submissions become a queue, which
    serves the tree of submissions level by level. */
module Submission {
  import opened Wrappers

  /** A bio, and the bios its make_request_fn submits, in order. */
  datatype Bio = Bio(id: nat, subs: seq<Bio>)

  function Size(f: seq<Bio>): nat {
    if f == [] then 0 else 1 + Size(f[0].subs) + Size(f[1..])
  }

  function Ids(f: seq<Bio>): seq<nat> { if f == [] then [] else [f[0].id] + Ids(f[1..]) }

  /** The submissions made by a row of bios. */
  function Subs(f: seq<Bio>): seq<Bio> { if f == [] then [] else f[0].subs + Subs(f[1..]) }

  lemma {:induction false} SizeAppend(a: seq<Bio>, b: seq<Bio>)
    ensures Size(a + b) == Size(a) + Size(b)
  {
    if a == [] {
      assert a + b == b;
    } else {
      assert (a + b)[1..] == a[1..] + b;
      SizeAppend(a[1..], b);
    }
  }

  lemma {:induction false} SizeSubs(f: seq<Bio>)
    ensures Size(f) == |f| + Size(Subs(f))
  {
    if f != [] {
      SizeSubs(f[1..]);
      SizeAppend(f[0].subs, Subs(f[1..]));
    }
  }

  /** Level by level: a row, then everything the row submits. */
  function Levels(f: seq<Bio>): seq<nat>
    decreases Size(f)
  {
    SizeSubs(f);
    if f == [] then [] else Ids(f) + Levels(Subs(f))
  }

  /** First come, first served, new submissions going to the end. */
  function Served(pending: seq<Bio>): seq<nat>
    decreases Size(pending)
  {
    if pending == [] then []
    else
      SizeAppend(pending[1..], pending[0].subs);
      [pending[0].id] + Served(pending[1..] + pending[0].subs)
  }

  lemma ServedStep(next: Bio, rest: seq<Bio>)
    ensures Served([next] + rest) == [next.id] + Served(rest + next.subs)
    ensures Size([next] + rest) == 1 + Size(next.subs) + Size(rest)
  {
    assert ([next] + rest)[1..] == rest;
  }

  /** Serving a row with its first submissions already behind it. */
  lemma {:induction false} ServeRow(row: seq<Bio>, behind: seq<Bio>)
    ensures Served(row + behind) == Ids(row) + Served(behind + Subs(row))
    decreases |row|
  {
    if row == [] {
      assert row + behind == behind && behind + Subs(row) == behind;
    } else {
      assert (row + behind)[1..] + row[0].subs == row[1..] + (behind + row[0].subs);
      ServeRow(row[1..], behind + row[0].subs);
      assert (behind + row[0].subs) + Subs(row[1..]) == behind + Subs(row);
    }
  }

  /** The queue serves breadth first. */
  lemma {:induction false} QueueIsBreadthFirst(f: seq<Bio>)
    ensures Served(f) == Levels(f)
    decreases Size(f)
  {
    if f != [] {
      ServeRow(f, []);
      assert f + [] == f && [] + Subs(f) == Subs(f);
      SizeSubs(f);
      QueueIsBreadthFirst(Subs(f));
    }
  }

  /** Every bio of the trees, depth first. */
  function All(f: seq<Bio>): seq<nat> {
    if f == [] then [] else [f[0].id] + All(f[0].subs) + All(f[1..])
  }

  lemma {:induction false} AllAppend(a: seq<Bio>, b: seq<Bio>)
    ensures All(a + b) == All(a) + All(b)
  {
    if a == [] {
      assert a + b == b;
    } else {
      assert (a + b)[1..] == a[1..] + b;
      AllAppend(a[1..], b);
    }
  }

  /** Every submission is processed exactly once. */
  lemma {:induction false} ServedOnce(f: seq<Bio>)
    ensures multiset(Served(f)) == multiset(All(f))
    decreases Size(f)
  {
    if f != [] {
      SizeAppend(f[1..], f[0].subs);
      ServedOnce(f[1..] + f[0].subs);
      AllAppend(f[1..], f[0].subs);
    }
  }

  // --------------------------------------------------------- current->bio_list

  /** A submitted bio with its bi_next link. */
  datatype Cell = Cell(bio: Bio, next: Option<nat>)

  /** current->bio_tail: NULL, the address of bio_list, or of some bi_next. */
  datatype Tail = Inactive | AtList | AtNext(cell: nat)

  /** The k-th pending cell holds the bio and links to the next one, if any. */
  predicate Holds(cells: seq<Cell>, pending: seq<nat>, bio: Bio, k: nat)
    requires k < |pending|
  {
    && pending[k] < |cells| && cells[pending[k]].bio == bio
    && cells[pending[k]].next == if k + 1 < |pending| then Some(pending[k + 1]) else None
  }

  lemma OneMore(was: seq<Bio>, subs: seq<Bio>, i: nat)
    requires i < |subs|
    ensures was + subs[..i] + [subs[i]] == was + subs[..i + 1]
  {
  }

  class Task {
    var cells: seq<Cell>
    var bioList: Option<nat>
    var bioTail: Tail
    var processed: seq<nat>
    ghost var pending: seq<nat>
    ghost var waiting: seq<Bio>
    ghost var active: nat
    ghost var deepest: nat

    /** At most one make_request_fn is active, and never were more; none is unless bio_tail
        says so. */
    ghost predicate Single()
      reads this`active, this`deepest, this`bioTail
    {
      active <= deepest <= 1 && (bioTail == Inactive ==> active == 0)
    }

    constructor ()
      ensures Single() && bioTail == Inactive && processed == []
    {
      cells, bioList, bioTail, processed := [], None, Inactive, [];
      pending, waiting, active, deepest := [], [], 0, 0;
    }

    /** bio_list leads through the pending bios in order, and bio_tail is where the list
        ends. */
    ghost predicate Linked()
      reads this
    {
      && |waiting| == |pending|
      && (forall k :: 0 <= k < |pending| ==> Holds(cells, pending, waiting[k], k))
      && (forall j, k :: 0 <= j < k < |pending| ==> pending[j] < pending[k])
      && bioList == (if pending == [] then None else Some(pending[0]))
      && bioTail == (if pending == [] then AtList else AtNext(pending[|pending| - 1]))
    }

    /** The bio goes to the end of the list. */
    method Append(bio: Bio)
      requires Linked()
      modifies this`cells, this`bioList, this`bioTail, this`pending, this`waiting
      ensures Linked() && waiting == old(waiting) + [bio]
    {
      var cell := |cells|;
      ghost var last := |pending| - 1;
      assert pending != [] ==> Holds(cells, pending, waiting[last], last);
      if bioTail == AtList {
        bioList := Some(cell);
      } else {
        cells := cells[bioTail.cell := cells[bioTail.cell].(next := Some(cell))];
      }
      cells := cells + [Cell(bio, None)];
      bioTail := AtNext(cell);
      pending, waiting := pending + [cell], waiting + [bio];
      forall k | 0 <= k < |pending| ensures Holds(cells, pending, waiting[k], k) {
        assert k < |old(pending)| ==> Holds(old(cells), old(pending), old(waiting)[k], k);
      }
    }

    /** __generic_make_request: a make_request_fn runs and submits the bios it makes. */
    method MakeRequest(bio: Bio)
      requires Linked() && Single() && active == 0
      modifies this
      ensures Linked() && Single() && active == 0
      ensures waiting == old(waiting) + bio.subs && processed == old(processed) + [bio.id]
      decreases 2
    {
      active := active + 1;
      deepest := if deepest < active then active else deepest;
      processed := processed + [bio.id];
      SubmitAll(bio.subs);
      active := active - 1;
    }

    /** The submissions of the active make_request_fn. */
    method SubmitAll(subs: seq<Bio>)
      requires Linked() && Single() && active == 1
      modifies this
      ensures Linked() && Single() && active == 1
      ensures waiting == old(waiting) + subs && processed == old(processed)
      decreases 1
    {
      ghost var was := waiting;
      for i := 0 to |subs|
        invariant Linked() && Single() && active == 1
        invariant waiting == was + subs[..i] && processed == old(processed)
      {
        OneMore(was, subs, i);
        GenericMakeRequest(subs[i]);
      }
      assert subs[..|subs|] == subs;
    }

    /** generic_make_request.  If a make_request_fn is active the bio is put at the end of the
        list; otherwise the bio and all that comes of it is processed level by level, by
        one make_request_fn at a time. */
    method GenericMakeRequest(bio: Bio)
      requires Single() && (bioTail != Inactive ==> Linked())
      modifies this
      ensures Single() && active == old(active) && (bioTail == Inactive <==> old(bioTail) == Inactive)
      ensures old(bioTail) == Inactive ==> processed == old(processed) + Levels([bio])
      ensures old(bioTail) != Inactive ==>
                Linked() && waiting == old(waiting) + [bio] && processed == old(processed)
      decreases if bioTail == Inactive then 5 else 0
    {
      if bioTail != Inactive {
        Append(bio);
        return;
      }
      QueueIsBreadthFirst([bio]);
      First(bio);
      Rest();
      bioTail := Inactive;
    }

    /** The first round of the loop. */
    method First(bio: Bio)
      requires Single() && bioTail == Inactive
      modifies this
      ensures Linked() && Single() && active == 0
      ensures processed + Served(waiting) == old(processed) + Served([bio])
      decreases 4
    {
      bioList, bioTail := None, AtList;
      cells, pending, waiting := [], [], [];
      ServedStep(bio, []);
      MakeRequest(bio);
      assert [bio] + [] == [bio] && [] + bio.subs == waiting;
    }

    /** The further rounds. */
    method Rest()
      requires Linked() && Single() && active == 0
      modifies this
      ensures Single() && active == 0 && processed == old(processed) + Served(old(waiting))
      decreases 4
    {
      while bioList.Some?
        invariant Linked() && Single() && active == 0
        invariant processed + Served(waiting) == old(processed) + Served(old(waiting))
        decreases Size(waiting)
      {
        ServeNext();
      }
      assert waiting == [];
    }

    /** One round of the loop. */
    method ServeNext()
      requires Linked() && Single() && active == 0 && bioList.Some?
      modifies this
      ensures Linked() && Single() && active == 0
      ensures processed + Served(waiting) == old(processed) + Served(old(waiting))
      ensures Size(waiting) < Size(old(waiting))
      decreases 3
    {
      ghost var was := waiting;
      var next := TakeOff();
      SizeAppend(waiting, next.subs);
      ServedStep(next, waiting);
      MakeRequest(next);
      assert was == [next] + old(waiting)[1..];
    }

    /** The top of the loop: the first pending bio is unlinked. */
    method TakeOff() returns (bio: Bio)
      requires Linked() && pending != []
      modifies this`cells, this`bioList, this`bioTail, this`pending, this`waiting
      ensures Linked() && old(waiting) == [bio] + waiting
    {
      var cell := bioList.value;
      assert Holds(cells, pending, waiting[0], 0);
      bio := cells[cell].bio;
      bioList := cells[cell].next;
      if cells[cell].next.None? {
        bioTail := AtList;
      } else {
        cells := cells[cell := cells[cell].(next := None)];
      }
      ghost var was := pending;
      pending, waiting := pending[1..], waiting[1..];
      forall k | 0 <= k < |pending| ensures Holds(cells, pending, waiting[k], k) {
        assert Holds(old(cells), was, old(waiting)[k + 1], k + 1);
        assert was[0] < was[k + 1];
      }
    }
  }
}
