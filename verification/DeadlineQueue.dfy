/** deadline_data as an object, with the elevator's drain loop on top of it. */
module DeadlineQueue {
  import opened Wrappers
  import opened DeadlineModel
  import opened DeadlineProofs
  import opened DeadlineHistory

  class DeadlineData {
    const c: Config
    var read: Lane
    var write: Lane
    var batching: nat
    var starved: nat
    var jiffies: nat
    var nrSorted: int
    var queueHead: seq<nat>

    ghost function View(): Deadline
      reads this
    {
      Deadline(read, write, batching, starved, jiffies, nrSorted, queueHead)
    }

    constructor (c: Config)
      ensures this.c == c && View() == Init() && Valid(c, View())
    {
      this.c := c;
      read, write := EMPTY_LANE, EMPTY_LANE;
      batching, starved, jiffies, nrSorted, queueHead := 0, 0, 0, 0, [];
      new;
      InitValid(c);
    }

    /** deadline_move_request, deadline_move_to_dispatch, elv_dispatch_add_tail: the request
        goes to the end of the dispatch queue, no other moves, and the lists agree again. */
    method MoveRequest(dir: bool, id: nat)
      modifies this`read, this`write, this`nrSorted, this`queueHead
      ensures View() == DeadlineModel.MoveRequest(old(View()), dir, id)
      ensures old(Valid(c, View()) && id in TreeIds(LaneOf(View(), dir).tree)) ==>
                Valid(c, View()) && Everywhere(View()) == Everywhere(old(View()))
    {
      MovePromises(c, View(), dir, id);
      var l := if dir then write else read;
      var next := Latter(l.tree, id);
      read := read.(next := None);
      write := write.(next := None);
      l := Lane(RemoveNode(l.tree, id), RemoveTick(l.fifo, id), next);
      if dir {
        write := l;
      } else {
        read := l;
      }
      nrSorted := nrSorted - 1;
      queueHead := queueHead + [id];
    }

    method SetTree(dir: bool, tree: seq<Node>)
      modifies this`read, this`write
      ensures View() == WithLane(old(View()), dir, LaneOf(old(View()), dir).(tree := tree))
    {
      if dir {
        write := write.(tree := tree);
      } else {
        read := read.(tree := tree);
      }
    }

    /** deadline_add_rq_rb: aliases are dispatched until the sector is free, which takes
        one round. */
    method AddRqRb(dir: bool, n: Node)
      requires Sorted(LaneOf(View(), dir).tree)
      modifies this`read, this`write, this`nrSorted, this`queueHead
      ensures View() == AddNode(old(View()), dir, n)
    {
      ghost var s := View();
      ghost var first := Alias(LaneOf(s, dir).tree, n.pos);
      var alias := Alias((if dir then write else read).tree, n.pos);
      while alias.Some?
        invariant alias == Alias(LaneOf(View(), dir).tree, n.pos)
        invariant || View() == s
                  || (first.Some? && alias.None? && View() == DeadlineModel.MoveRequest(s, dir, first.value))
        invariant first.Some? && alias.None? ==> View() == DeadlineModel.MoveRequest(s, dir, first.value)
        decreases if alias.Some? then 1 else 0
      {
        AliasGone(LaneOf(s, dir).tree, n.pos);
        MoveRequest(dir, alias.value);
        alias := Alias((if dir then write else read).tree, n.pos);
      }
      SetTree(dir, InsertNode((if dir then write else read).tree, n));
    }

    method AddRequest(dir: bool, n: Node)
      requires Valid(c, View()) && Enabled(View(), Add(dir, n))
      modifies this`read, this`write, this`nrSorted, this`queueHead
      ensures View() == DeadlineModel.AddRequest(c, old(View()), dir, n)
    {
      AddRqRb(dir, n);
      if dir {
        write := write.(fifo := write.fifo + [Tick(n.id, jiffies + c.writeExpire)]);
      } else {
        read := read.(fifo := read.fifo + [Tick(n.id, jiffies + c.readExpire)]);
      }
      nrSorted := nrSorted + 1;
    }

    /** deadline_merged_request: reposition after a front merge. */
    method MergedRequest(dir: bool, n: Node)
      requires Valid(c, View()) && Enabled(View(), FrontMerge(dir, n))
      modifies this`read, this`write, this`nrSorted, this`queueHead
      ensures View() == FrontMerged(old(View()), dir, n)
    {
      RemoveSorted(LaneOf(View(), dir).tree, n.id);
      SetTree(dir, RemoveNode((if dir then write else read).tree, n.id));
      AddRqRb(dir, n);
    }

    /** deadline_merged_requests and elv_merge_requests: `gone` leaves both lists and `id`
        keeps the earlier of the two deadlines. */
    method MergeRequests(dir: bool, id: nat, gone: nat)
      modifies this`read, this`write, this`nrSorted
      ensures View() == MergedRequests(old(View()), dir, id, gone)
      ensures old(Valid(c, View()) && Enabled(View(), MergeReqs(dir, id, gone))) ==>
                Absorbs(c, old(View()), View(), dir, id, gone)
    {
      MergePromises(c, View(), dir, id, gone);
      var l := if dir then write else read;
      var fifo := l.fifo;
      if TimeOf(fifo, gone) < TimeOf(fifo, id) {
        var time := TimeOf(fifo, gone);
        fifo := InsertAfter(RemoveTick(fifo, id), gone, Tick(id, time));
      }
      fifo := RemoveTick(fifo, gone);
      var next := l.next;
      if next == Some(gone) {
        next := Latter(l.tree, gone);
      }
      l := Lane(RemoveNode(l.tree, gone), fifo, next);
      if dir {
        write := l;
      } else {
        read := l;
      }
      nrSorted := nrSorted - 1;
    }

    /** From label dispatch_request on. */
    method SendOn(dir: bool, id: nat)
      modifies this`read, this`write, this`batching, this`nrSorted, this`queueHead
      ensures View() == DeadlineModel.MoveRequest(old(View()).(batching := old(batching) + 1), dir, id)
    {
      batching := batching + 1;
      MoveRequest(dir, id);
    }

    /** From label dispatch_find_request on. */
    method StartBatch(dir: bool)
      requires LaneOf(View(), dir).fifo != []
      modifies this`read, this`write, this`batching, this`nrSorted, this`queueHead
      ensures View() == DeadlineModel.MoveRequest(old(View()).(batching := 1), dir, BatchStart(old(View()), dir))
    {
      var l := if dir then write else read;
      var id := if jiffies > l.fifo[0].time || l.next.None? then l.fifo[0].id else l.next.value;
      batching := 0;
      SendOn(dir, id);
    }

    /** deadline_dispatch_requests. */
    method DispatchRequests() returns (sent: bool)
      modifies this
      ensures View() == Dispatch(c, old(View())) && sent == Selected(c, old(View())).Sent?
    {
      var reading, writing := this.read.fifo != [], this.write.fifo != [];
      if batching < c.fifoBatch {
        if write.next.Some? {
          SendOn(true, write.next.value);
          return true;
        }
        if read.next.Some? {
          SendOn(false, read.next.value);
          return true;
        }
      }
      if reading {
        var starving := false;
        if writing {
          starving := starved >= c.writesStarved;
          starved := starved + 1;
        }
        if !starving {
          StartBatch(false);
          return true;
        }
      }
      if writing {
        starved := 0;
        StartBatch(true);
        return true;
      }
      return false;
    }

    /** elv_drain_elevator: every queued request goes to the dispatch queue once, behind
        what was there, and nothing is left. */
    method DrainElevator()
      requires Valid(c, View())
      modifies this
      ensures Valid(c, View()) && read.tree == [] && read.fifo == [] && write.tree == [] && write.fifo == []
      ensures nrSorted == 0
      ensures old(queueHead) <= queueHead && |queueHead| == |old(queueHead)| + old(nrSorted)
      ensures (set id | id in queueHead)
              == (set id | id in old(queueHead)) + TreeIds(old(read).tree) + TreeIds(old(write).tree)
    {
      ghost var s := View();
      var more := true;
      while more
        invariant Valid(c, View())
        invariant old(queueHead) <= queueHead && |queueHead| + nrSorted == |old(queueHead)| + old(nrSorted)
        invariant Everywhere(View()) == Everywhere(s)
        invariant !more ==> read.tree == [] && write.tree == []
        decreases nrSorted, more
      {
        ghost var before := View();
        SelectedIsQueued(c, before);
        DispatchValid(c, before);
        DispatchKeepsIds(c, before);
        more := DispatchRequests();
      }
      FifoEmptyIff(read, jiffies + c.readExpire);
      FifoEmptyIff(write, jiffies + c.writeExpire);
    }
  }

  lemma MovePromises(c: Config, s: Deadline, write: bool, id: nat)
    ensures Valid(c, s) && id in TreeIds(LaneOf(s, write).tree) ==>
              var s' := DeadlineModel.MoveRequest(s, write, id); Valid(c, s') && Everywhere(s') == Everywhere(s)
  {
    if Valid(c, s) && id in TreeIds(LaneOf(s, write).tree) {
      MoveValid(c, s, write, id);
      MoveKeepsIds(s, write, id);
    }
  }

  function Earlier(a: nat, b: nat): nat { if b < a then b else a }

  /** One request has absorbed the other, and with it the earlier deadline. */
  ghost predicate Absorbs(c: Config, s: Deadline, s': Deadline, write: bool, id: nat, gone: nat) {
    var l, l' := LaneOf(s, write), LaneOf(s', write);
    && Valid(c, s') && TreeIds(l'.tree) == TreeIds(l.tree) - {gone}
    && TimeOf(l'.fifo, id) == Earlier(TimeOf(l.fifo, id), TimeOf(l.fifo, gone))
    && LaneOf(s', !write) == LaneOf(s, !write)
  }

  lemma MergePromises(c: Config, s: Deadline, write: bool, id: nat, gone: nat)
    ensures Valid(c, s) && Enabled(s, MergeReqs(write, id, gone)) ==>
              Absorbs(c, s, MergedRequests(s, write, id, gone), write, id, gone)
  {
    if Valid(c, s) && Enabled(s, MergeReqs(write, id, gone)) {
      var l := LaneOf(s, write);
      MergeValid(c, s, write, id, gone);
      MergedLaneOk(l, id, gone, s.now + Expire(c, write));
      EarlierTime(l.fifo, id, gone);
    }
  }

  lemma EarlierTime(f: seq<Tick>, id: nat, gone: nat)
    requires Timed(f) && id in FifoIds(f) && gone in FifoIds(f) && id != gone
    ensures TimeOf(MergedFifo(f, id, gone), id) == Earlier(TimeOf(f, id), TimeOf(f, gone))
  {
    FifoIdsAre(f);
    var x :| x in f && x.id == id;
    var y :| y in f && y.id == gone;
    MergedFifoTimed(f, x, y);
    TimeIs(f, x);
    TimeIs(f, y);
    TimeIs(MergedFifo(f, id, gone), Tick(id, Earlier(x.time, y.time)));
  }
}
