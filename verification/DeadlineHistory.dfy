/** Where the requests of the deadline scheduler are: over every run each request that was
    added is queued or dispatched, once, unless another has absorbed it. */
module DeadlineHistory {
  import opened Wrappers
  import opened DeadlineModel
  import opened DeadlineProofs

  /** All requests queued or dispatched. */
  function Everywhere(s: Deadline): set<nat> {
    (set id | id in s.sent) + TreeIds(s.read.tree) + TreeIds(s.write.tree)
  }

  lemma MoveKeepsIds(s: Deadline, write: bool, id: nat)
    requires Sorted(LaneOf(s, write).tree) && id in TreeIds(LaneOf(s, write).tree)
    ensures Everywhere(MoveRequest(s, write, id)) == Everywhere(s)
  {
    RemoveSorted(LaneOf(s, write).tree, id);
    assert forall x :: x in s.sent + [id] <==> x in s.sent || x == id;
  }

  lemma DispatchKeepsIds(c: Config, s: Deadline)
    requires Valid(c, s)
    ensures Everywhere(Dispatch(c, s)) == Everywhere(s)
    ensures Dispatch(c, s).nrSorted == s.nrSorted - (if Selected(c, s).Sent? then 1 else 0)
    ensures s.sent <= Dispatch(c, s).sent && |Dispatch(c, s).sent| + Dispatch(c, s).nrSorted == |s.sent| + s.nrSorted
  {
    SelectedIsQueued(c, s);
    if Selected(c, s).Sent? { MoveKeepsIds(Counted(c, s), Selected(c, s).write, Selected(c, s).id); }
  }

  /** The requests there should be, by what has happened. */
  function Known(ids: set<nat>, op: Op): set<nat> {
    match op
    case Add(_, n) => ids + {n.id}
    case MergeReqs(_, _, gone) => ids - {gone}
    case _ => ids
  }

  function KnownAfter(ids: set<nat>, run: seq<Op>): set<nat>
    decreases |run|
  {
    if run == [] then ids else KnownAfter(Known(ids, run[0]), run[1..])
  }

  /** Putting a node into a lane makes its id known. */
  lemma PlacedIds(s: Deadline, write: bool, n: Node)
    requires Sorted(LaneOf(s, write).tree) && n.id !in TreeIds(LaneOf(s, write).tree)
    ensures Everywhere(AddNode(s, write, n)) == Everywhere(s) + {n.id}
  {
    var t := LaneOf(s, write).tree;
    if Alias(t, n.pos).Some? {
      var a := Alias(t, n.pos).value;
      AliasIs(t, n.pos);
      AliasGone(t, n.pos);
      MoveKeepsIds(s, write, a);
      RemoveSorted(t, a);
      InsertSorted(RemoveNode(t, a), n);
    } else {
      InsertSorted(t, n);
    }
  }

  lemma AddIds(c: Config, s: Deadline, write: bool, n: Node)
    requires Valid(c, s) && Enabled(s, Add(write, n))
    ensures Everywhere(AddRequest(c, s, write, n)) == Everywhere(s) + {n.id}
  {
    PlacedIds(s, write, n);
    assert AddRequest(c, s, write, n).sent == AddNode(s, write, n).sent;
  }

  lemma FrontIds(c: Config, s: Deadline, write: bool, n: Node)
    requires Valid(c, s) && Enabled(s, FrontMerge(write, n))
    ensures Everywhere(FrontMerged(s, write, n)) == Everywhere(s)
  {
    var l := LaneOf(s, write);
    RemoveSorted(l.tree, n.id);
    PlacedIds(WithLane(s, write, l.(tree := RemoveNode(l.tree, n.id))), write, n);
  }

  lemma MergeIds(c: Config, s: Deadline, write: bool, id: nat, gone: nat)
    requires Valid(c, s) && Enabled(s, MergeReqs(write, id, gone))
    ensures Everywhere(MergedRequests(s, write, id, gone)) == Everywhere(s) - {gone}
  {
    MergedLaneOk(LaneOf(s, write), id, gone, s.now + Expire(c, write));
  }

  lemma StepIds(c: Config, s: Deadline, op: Op)
    requires Valid(c, s) && Enabled(s, op)
    ensures Everywhere(Apply(c, s, op)) == Known(Everywhere(s), op)
  {
    match op
    case Pass(_) =>
    case Add(w, n) => AddIds(c, s, w, n);
    case FrontMerge(w, n) => FrontIds(c, s, w, n);
    case MergeReqs(w, id, gone) => MergeIds(c, s, w, id, gone);
    case DispatchOne => DispatchKeepsIds(c, s);
  }

  /** After any run the queued and the dispatched requests are those added and not absorbed,
      and each is in one place. */
  lemma {:induction false} NoRequestIsLost(c: Config, s: Deadline, run: seq<Op>)
    requires Valid(c, s) && IsRun(c, s, run)
    ensures Everywhere(After(c, s, run)) == KnownAfter(Everywhere(s), run) && Apart(After(c, s, run))
    decreases |run|
  {
    if run != [] {
      StepIds(c, s, run[0]);
      StepValid(c, s, run[0]);
      NoRequestIsLost(c, Apply(c, s, run[0]), run[1..]);
    }
  }
}
