/** What deadline-iosched.c keeps through every run, and how long reads can starve a
    write. */
module DeadlineProofs {
  import opened Wrappers
  import opened DeadlineModel

  // --------------------------------------------------------- tree and fifo laws

  /** Sorted by sector, no sector and no request twice. */
  ghost predicate Sorted(t: seq<Node>) {
    t == [] || (Sorted(t[1..]) && forall m :: m in t[1..] ==> t[0].pos < m.pos && t[0].id != m.id)
  }

  /** Ordered by expiry, no request twice. */
  ghost predicate Timed(f: seq<Tick>) {
    f == [] || (Timed(f[1..]) && forall m :: m in f[1..] ==> f[0].time <= m.time && f[0].id != m.id)
  }

  lemma {:induction false} TreeIdsAre(t: seq<Node>)
    ensures forall m :: m in t ==> m.id in TreeIds(t)
    ensures forall id :: id in TreeIds(t) ==> exists m :: m in t && m.id == id
  {
    if t != [] {
      TreeIdsAre(t[1..]);
      assert forall m :: m in t ==> m == t[0] || m in t[1..];
    }
  }

  lemma {:induction false} FifoIdsAre(f: seq<Tick>)
    ensures forall m :: m in f ==> m.id in FifoIds(f)
    ensures forall id :: id in FifoIds(f) ==> exists m :: m in f && m.id == id
  {
    if f != [] {
      FifoIdsAre(f[1..]);
      assert forall m :: m in f ==> m == f[0] || m in f[1..];
    }
  }

  lemma {:induction false} InsertSorted(t: seq<Node>, n: Node)
    requires Sorted(t) && Alias(t, n.pos).None? && n.id !in TreeIds(t)
    ensures var r := InsertNode(t, n);
            Sorted(r) && TreeIds(r) == TreeIds(t) + {n.id} && |r| == |t| + 1 && forall m :: m in r <==> m == n || m in t
  {
    if t != [] {
      TreeIdsAre(t);
      assert forall m :: m in t <==> m == t[0] || m in t[1..];
      if n.pos < t[0].pos {
        assert ([n] + t)[1..] == t;
      } else {
        InsertSorted(t[1..], n);
        var r := InsertNode(t[1..], n);
        assert ([t[0]] + r)[1..] == r;
      }
    }
  }

  lemma {:induction false} RemoveSorted(t: seq<Node>, id: nat)
    requires Sorted(t)
    ensures var r := RemoveNode(t, id);
            && Sorted(r) && TreeIds(r) == TreeIds(t) - {id} && (id in TreeIds(t) ==> |r| == |t| - 1)
            && forall m :: m in r <==> m in t && m.id != id
  {
    if t != [] {
      TreeIdsAre(t[1..]);
      assert forall m :: m in t <==> m == t[0] || m in t[1..];
      if t[0].id != id {
        RemoveSorted(t[1..], id);
        var r := RemoveNode(t[1..], id);
        assert ([t[0]] + r)[1..] == r;
      }
    }
  }

  /** rb_next finds the queued request with the next higher sector. */
  lemma {:induction false} LatterIsNext(t: seq<Node>, x: Node)
    requires Sorted(t) && x in t
    ensures match Latter(t, x.id)
            case None => forall m :: m in t ==> m.pos <= x.pos
            case Some(y) => y in TreeIds(t) && y != x.id
                            && exists m :: m in t && m.id == y && x.pos < m.pos
                                           && forall o :: o in t && x.pos < o.pos ==> m.pos <= o.pos
  {
    assert forall m :: m in t <==> m == t[0] || m in t[1..];
    if t[0].id == x.id {
      assert x == t[0];
      if |t| > 1 {
        var m := t[1];
        assert m in t && t[1..][0] == m;
        forall o | o in t && x.pos < o.pos ensures m.pos <= o.pos {
          assert o in t[1..];
          assert o == t[1..][0] || o in t[1..][1..];
        }
        TreeIdsAre(t);
      } else {
        assert t[1..] == [];
      }
    } else {
      LatterIsNext(t[1..], x);
      match Latter(t[1..], x.id)
      case None =>
      case Some(y) =>
        var m :| && m in t[1..] && m.id == y && x.pos < m.pos
                 && forall o :: o in t[1..] && x.pos < o.pos ==> m.pos <= o.pos;
        assert m in t;
    }
  }

  lemma {:induction false} AliasIs(t: seq<Node>, pos: nat)
    ensures Alias(t, pos).Some? ==> Alias(t, pos).value in TreeIds(t) && Node(Alias(t, pos).value, pos) in t
    ensures Alias(t, pos).None? ==> forall m :: m in t ==> m.pos != pos
  {
    if t != [] && t[0].pos != pos {
      AliasIs(t[1..], pos);
      assert forall m :: m in t <==> m == t[0] || m in t[1..];
    }
  }

  lemma {:induction false} SamePosSameNode(t: seq<Node>, x: Node, y: Node)
    requires Sorted(t) && x in t && y in t && (x.pos == y.pos || x.id == y.id)
    ensures x == y
  {
    assert forall m :: m in t <==> m == t[0] || m in t[1..];
    if x != t[0] && y != t[0] { SamePosSameNode(t[1..], x, y); }
  }

  lemma {:induction false} NoAlias(t: seq<Node>, pos: nat)
    requires forall m :: m in t ==> m.pos != pos
    ensures Alias(t, pos).None?
  {
    if t != [] {
      assert t[0] in t;
      assert forall m :: m in t[1..] ==> m in t;
      NoAlias(t[1..], pos);
    }
  }

  lemma {:induction false} RemoveTimed(f: seq<Tick>, id: nat)
    requires Timed(f)
    ensures var r := RemoveTick(f, id);
            && Timed(r) && FifoIds(r) == FifoIds(f) - {id}
            && forall m :: m in r <==> m in f && m.id != id
  {
    if f != [] {
      FifoIdsAre(f[1..]);
      assert forall m :: m in f <==> m == f[0] || m in f[1..];
      if f[0].id != id {
        RemoveTimed(f[1..], id);
        var r := RemoveTick(f[1..], id);
        assert ([f[0]] + r)[1..] == r;
      }
    }
  }

  lemma {:induction false} AppendTimed(f: seq<Tick>, t: Tick)
    requires Timed(f) && t.id !in FifoIds(f) && forall m :: m in f ==> m.time <= t.time
    ensures Timed(f + [t]) && FifoIds(f + [t]) == FifoIds(f) + {t.id}
  {
    if f != [] {
      AppendTimed(f[1..], t);
      FifoIdsAre(f);
      assert (f + [t])[1..] == f[1..] + [t];
      assert forall m :: m in f[1..] + [t] ==> m in f[1..] || m == t;
    } else {
      assert f + [t] == [t];
    }
  }

  lemma {:induction false} TimeIs(f: seq<Tick>, m: Tick)
    requires Timed(f) && m in f
    ensures TimeOf(f, m.id) == m.time
  {
    assert forall x :: x in f <==> x == f[0] || x in f[1..];
    if f[0] != m { TimeIs(f[1..], m); }
  }

  /** Moving a tick right behind one of the same time keeps the order. */
  lemma {:induction false} InsertAfterTimed(f: seq<Tick>, gone: Tick, t: Tick)
    requires Timed(f) && gone in f && t.id !in FifoIds(f) && t.time == gone.time
    ensures var r := InsertAfter(f, gone.id, t);
            && Timed(r) && FifoIds(r) == FifoIds(f) + {t.id}
            && forall m :: m in r <==> m in f || m == t
  {
    FifoIdsAre(f);
    assert forall m :: m in f <==> m == f[0] || m in f[1..];
    if f[0].id == gone.id {
      assert f[0] == gone;
      var r := [f[0], t] + f[1..];
      assert r[1..] == [t] + f[1..] && r[1..][1..] == f[1..];
    } else {
      InsertAfterTimed(f[1..], gone, t);
      var r := InsertAfter(f[1..], gone.id, t);
      assert ([f[0]] + r)[1..] == r;
    }
  }

  /** A request merge keeps the fifo ordered; the survivor has the earlier expiry. */
  lemma MergedFifoTimed(f: seq<Tick>, x: Tick, gone: Tick)
    requires Timed(f) && x in f && gone in f && x.id != gone.id
    ensures var r := MergedFifo(f, x.id, gone.id);
            && Timed(r) && FifoIds(r) == FifoIds(f) - {gone.id}
            && Tick(x.id, if gone.time < x.time then gone.time else x.time) in r
            && forall m :: m in r && m.id != x.id ==> m in f
  {
    TimeIs(f, x);
    TimeIs(f, gone);
    FifoIdsAre(f);
    if gone.time < x.time {
      RemoveTimed(f, x.id);
      var f1 := RemoveTick(f, x.id);
      InsertAfterTimed(f1, gone, Tick(x.id, gone.time));
      RemoveTimed(InsertAfter(f1, gone.id, Tick(x.id, gone.time)), gone.id);
    } else {
      RemoveTimed(f, gone.id);
    }
  }

  // ------------------------------------------------------------ the invariant

  /** Both lists of one direction hold the same requests and next_rq is one of them. */
  ghost predicate LaneOk(l: Lane, latest: nat) {
    && Sorted(l.tree) && Timed(l.fifo) && TreeIds(l.tree) == FifoIds(l.fifo)
    && (l.next.Some? ==> l.next.value in TreeIds(l.tree))
    && (forall m :: m in l.fifo ==> m.time <= latest)
  }

  /** Every request is in one place only. */
  ghost predicate Apart(s: Deadline) {
    && TreeIds(s.read.tree) !! TreeIds(s.write.tree)
    && (forall id :: id in s.sent ==> id !in TreeIds(s.read.tree) && id !in TreeIds(s.write.tree))
    && (forall i, j :: 0 <= i < j < |s.sent| ==> s.sent[i] != s.sent[j])
  }

  function BatchLimit(c: Config): nat { if c.fifoBatch == 0 then 1 else c.fifoBatch }

  ghost predicate Valid(c: Config, s: Deadline) {
    && LaneOk(s.read, s.now + c.readExpire) && LaneOk(s.write, s.now + c.writeExpire)
    && !(s.read.next.Some? && s.write.next.Some?)
    && s.nrSorted == |s.read.tree| + |s.write.tree| && Apart(s)
    && s.batching <= BatchLimit(c) && s.starved <= c.writesStarved
  }

  lemma InitValid(c: Config)
    ensures Valid(c, Init())
  {
  }

  lemma MoveLane(l: Lane, id: nat, latest: nat)
    requires LaneOk(l, latest) && id in TreeIds(l.tree)
    ensures var l' := Lane(RemoveNode(l.tree, id), RemoveTick(l.fifo, id), Latter(l.tree, id));
            LaneOk(l', latest) && TreeIds(l'.tree) == TreeIds(l.tree) - {id} && |l'.tree| == |l.tree| - 1
  {
    RemoveSorted(l.tree, id);
    RemoveTimed(l.fifo, id);
    TreeIdsAre(l.tree);
    var x :| x in l.tree && x.id == id;
    LatterIsNext(l.tree, x);
  }

  lemma MoveValid(c: Config, s: Deadline, write: bool, id: nat)
    requires Valid(c, s) && id in TreeIds(LaneOf(s, write).tree)
    ensures Valid(c, MoveRequest(s, write, id))
  {
    MoveLane(LaneOf(s, write), id, s.now + Expire(c, write));
    MoveApart(s, MoveRequest(s, write, id), write, id);
  }

  lemma MoveApart(s: Deadline, s': Deadline, write: bool, id: nat)
    requires Apart(s) && s'.sent == s.sent + [id] && id in TreeIds(LaneOf(s, write).tree)
    requires TreeIds(LaneOf(s', write).tree) == TreeIds(LaneOf(s, write).tree) - {id}
    requires LaneOf(s', !write).tree == LaneOf(s, !write).tree
    ensures Apart(s')
  {
    assert forall x :: x in s.sent + [id] <==> x in s.sent || x == id;
  }

  /** Taking a request into the tree, whether or not its fifo entry is already there. */
  lemma PlaceNode(l: Lane, n: Node, latest: nat)
    requires LaneOk(l, latest) && n.id !in TreeIds(l.tree) && Alias(l.tree, n.pos).None?
    ensures LaneOk(Lane(InsertNode(l.tree, n), l.fifo + [Tick(n.id, latest)], l.next), latest)
  {
    InsertSorted(l.tree, n);
    AppendTimed(l.fifo, Tick(n.id, latest));
    assert forall m :: m in l.fifo + [Tick(n.id, latest)] ==> m in l.fifo || m.time == latest;
  }

  /** After the alias has been dispatched the sector is free. */
  lemma AliasGone(t: seq<Node>, pos: nat)
    requires Sorted(t) && Alias(t, pos).Some?
    ensures Alias(RemoveNode(t, Alias(t, pos).value), pos).None?
  {
    var id := Alias(t, pos).value;
    AliasIs(t, pos);
    RemoveSorted(t, id);
    forall m | m in RemoveNode(t, id) ensures m.pos != pos {
      if m.pos == pos { SamePosSameNode(t, m, Node(id, pos)); }
    }
    NoAlias(RemoveNode(t, id), pos);
  }

  /** Replacing one direction by a good one. */
  lemma WithLaneValid(c: Config, s: Deadline, write: bool, l: Lane, n: int)
    requires Valid(c, s) && LaneOk(l, s.now + Expire(c, write)) && |l.tree| == |LaneOf(s, write).tree| + n
    requires l.next.Some? ==> LaneOf(s, !write).next.None?
    requires TreeIds(l.tree) !! TreeIds(LaneOf(s, !write).tree)
    requires forall id :: id in s.sent ==> id !in TreeIds(l.tree)
    ensures Valid(c, WithLane(s, write, l).(nrSorted := s.nrSorted + n))
  {
  }

  lemma AddFree(c: Config, s: Deadline, write: bool, n: Node)
    requires Valid(c, s) && Enabled(s, Add(write, n)) && Alias(LaneOf(s, write).tree, n.pos).None?
    ensures Valid(c, AddRequest(c, s, write, n))
  {
    var l, latest := LaneOf(s, write), s.now + Expire(c, write);
    PlaceNode(l, n, latest);
    InsertSorted(l.tree, n);
    FreeIs(c, s, write, n);
    WithLaneValid(c, s, write, Lane(InsertNode(l.tree, n), l.fifo + [Tick(n.id, latest)], l.next), 1);
  }

  lemma FreeIs(c: Config, s: Deadline, write: bool, n: Node)
    requires Alias(LaneOf(s, write).tree, n.pos).None?
    ensures var l := LaneOf(s, write);
            AddRequest(c, s, write, n)
            == WithLane(s, write, Lane(InsertNode(l.tree, n), l.fifo + [Tick(n.id, s.now + Expire(c, write))], l.next))
               .(nrSorted := s.nrSorted + 1)
  {
  }

  /** Dispatching the alias makes room for the new request. */
  lemma AliasMakesRoom(c: Config, s: Deadline, write: bool, n: Node)
    requires Valid(c, s) && Enabled(s, Add(write, n)) && Alias(LaneOf(s, write).tree, n.pos).Some?
    ensures var s1 := MoveRequest(s, write, Alias(LaneOf(s, write).tree, n.pos).value);
            Valid(c, s1) && Enabled(s1, Add(write, n)) && Alias(LaneOf(s1, write).tree, n.pos).None?
  {
    var id := Alias(LaneOf(s, write).tree, n.pos).value;
    AliasIs(LaneOf(s, write).tree, n.pos);
    AliasGone(LaneOf(s, write).tree, n.pos);
    MoveValid(c, s, write, id);
    RemoveSorted(LaneOf(s, write).tree, id);
  }

  lemma AddAfterAlias(c: Config, s: Deadline, write: bool, n: Node)
    requires Alias(LaneOf(s, write).tree, n.pos).Some?
    requires Alias(RemoveNode(LaneOf(s, write).tree, Alias(LaneOf(s, write).tree, n.pos).value), n.pos).None?
    ensures AddRequest(c, s, write, n)
            == AddRequest(c, MoveRequest(s, write, Alias(LaneOf(s, write).tree, n.pos).value), write, n)
  {
  }

  lemma AddValid(c: Config, s: Deadline, write: bool, n: Node)
    requires Valid(c, s) && Enabled(s, Add(write, n))
    ensures Valid(c, AddRequest(c, s, write, n))
  {
    var alias := Alias(LaneOf(s, write).tree, n.pos);
    if alias.Some? {
      AliasMakesRoom(c, s, write, n);
      AddAfterAlias(c, s, write, n);
      AddFree(c, MoveRequest(s, write, alias.value), write, n);
    } else {
      AddFree(c, s, write, n);
    }
  }

  /** The request that is being repositioned is in the fifo but not in the tree. */
  ghost predicate Lifted(l: Lane, id: nat, latest: nat) {
    && Sorted(l.tree) && Timed(l.fifo) && TreeIds(l.tree) + {id} == FifoIds(l.fifo) && id !in TreeIds(l.tree)
    && (l.next.Some? ==> l.next.value in FifoIds(l.fifo))
    && (forall m :: m in l.fifo ==> m.time <= latest)
  }

  lemma LiftedMove(l: Lane, id: nat, alias: nat, latest: nat)
    requires Lifted(l, id, latest) && alias in TreeIds(l.tree)
    ensures var l' := Lane(RemoveNode(l.tree, alias), RemoveTick(l.fifo, alias), Latter(l.tree, alias));
            Lifted(l', id, latest) && TreeIds(l'.tree) == TreeIds(l.tree) - {alias} && |l'.tree| == |l.tree| - 1
  {
    RemoveSorted(l.tree, alias);
    RemoveTimed(l.fifo, alias);
    TreeIdsAre(l.tree);
    var x :| x in l.tree && x.id == alias;
    LatterIsNext(l.tree, x);
  }

  lemma FrontLane(l: Lane, n: Node, latest: nat)
    requires LaneOk(l, latest) && n.id in TreeIds(l.tree)
    ensures var t := RemoveNode(l.tree, n.id);
            && Lifted(l.(tree := t), n.id, latest) && |t| == |l.tree| - 1 && TreeIds(t) == TreeIds(l.tree) - {n.id}
            && (Alias(t, n.pos).None? ==>
                  LaneOk(l.(tree := InsertNode(t, n)), latest) && |InsertNode(t, n)| == |l.tree|
                  && TreeIds(InsertNode(t, n)) == TreeIds(l.tree))
  {
    RemoveSorted(l.tree, n.id);
    if Alias(RemoveNode(l.tree, n.id), n.pos).None? { InsertSorted(RemoveNode(l.tree, n.id), n); }
  }

  lemma FrontAliasLane(l: Lane, n: Node, latest: nat)
    requires Lifted(l, n.id, latest) && Alias(l.tree, n.pos).Some?
    ensures var a := Alias(l.tree, n.pos).value;
            var t := RemoveNode(l.tree, a);
            && a in TreeIds(l.tree) && |InsertNode(t, n)| == |l.tree|
            && LaneOk(Lane(InsertNode(t, n), RemoveTick(l.fifo, a), Latter(l.tree, a)), latest)
            && TreeIds(InsertNode(t, n)) == TreeIds(l.tree) - {a} + {n.id}
  {
    var a := Alias(l.tree, n.pos).value;
    AliasIs(l.tree, n.pos);
    AliasGone(l.tree, n.pos);
    LiftedMove(l, n.id, a, latest);
    InsertSorted(RemoveNode(l.tree, a), n);
  }

  /** The state as if the alias had been dispatched with every request in place. */
  lemma SendAlias(c: Config, s: Deadline, write: bool, id: nat) returns (s': Deadline)
    requires Valid(c, s) && id in TreeIds(LaneOf(s, write).tree)
    ensures s' == MoveRequest(s, write, id) && Valid(c, s') && |LaneOf(s', write).tree| == |LaneOf(s, write).tree| - 1
  {
    s' := MoveRequest(s, write, id);
    MoveValid(c, s, write, id);
    MoveLane(LaneOf(s, write), id, s.now + Expire(c, write));
  }

  lemma FrontAfterAlias(s: Deadline, write: bool, n: Node)
    requires Alias(RemoveNode(LaneOf(s, write).tree, n.id), n.pos).Some?
    ensures var l := LaneOf(s, write);
            var t := RemoveNode(l.tree, n.id);
            var a := Alias(t, n.pos).value;
            FrontMerged(s, write, n)
            == WithLane(MoveRequest(s, write, a), write,
                        Lane(InsertNode(RemoveNode(t, a), n), RemoveTick(l.fifo, a), Latter(t, a)))
  {
  }

  lemma FrontAliasValid(c: Config, s: Deadline, write: bool, n: Node)
    requires Valid(c, s) && Enabled(s, FrontMerge(write, n))
    requires Alias(RemoveNode(LaneOf(s, write).tree, n.id), n.pos).Some?
    ensures Valid(c, FrontMerged(s, write, n))
  {
    var l, latest := LaneOf(s, write), s.now + Expire(c, write);
    FrontLane(l, n, latest);
    var l1 := l.(tree := RemoveNode(l.tree, n.id));
    var alias := Alias(l1.tree, n.pos).value;
    FrontAliasLane(l1, n, latest);
    var l2 := Lane(InsertNode(RemoveNode(l1.tree, alias), n), RemoveTick(l.fifo, alias), Latter(l1.tree, alias));
    var s1 := SendAlias(c, s, write, alias);
    WithLaneValid(c, s1, write, l2, 0);
    FrontAfterAlias(s, write, n);
  }

  lemma FrontValid(c: Config, s: Deadline, write: bool, n: Node)
    requires Valid(c, s) && Enabled(s, FrontMerge(write, n))
    ensures Valid(c, FrontMerged(s, write, n))
  {
    var l := LaneOf(s, write);
    var t := RemoveNode(l.tree, n.id);
    if Alias(t, n.pos).Some? {
      FrontAliasValid(c, s, write, n);
    } else {
      FrontLane(l, n, s.now + Expire(c, write));
      WithLaneValid(c, s, write, l.(tree := InsertNode(t, n)), 0);
    }
  }

  lemma MergedLaneOk(l: Lane, id: nat, gone: nat, latest: nat)
    requires LaneOk(l, latest) && id in TreeIds(l.tree) && gone in TreeIds(l.tree) && id != gone
    ensures LaneOk(MergedLane(l, id, gone), latest) && |MergedLane(l, id, gone).tree| == |l.tree| - 1
    ensures TreeIds(MergedLane(l, id, gone).tree) == TreeIds(l.tree) - {gone}
  {
    MoveLane(l, gone, latest);
    FifoIdsAre(l.fifo);
    var x :| x in l.fifo && x.id == id;
    var y :| y in l.fifo && y.id == gone;
    MergedFifoTimed(l.fifo, x, y);
    var f := MergedFifo(l.fifo, id, gone);
    forall m | m in f ensures m.time <= latest {
      if m.id == id {
        TimeIs(f, m);
        TimeIs(f, Tick(id, if y.time < x.time then y.time else x.time));
      }
    }
  }

  lemma MergeValid(c: Config, s: Deadline, write: bool, id: nat, gone: nat)
    requires Valid(c, s) && Enabled(s, MergeReqs(write, id, gone))
    ensures Valid(c, MergedRequests(s, write, id, gone))
  {
    MergedLaneOk(LaneOf(s, write), id, gone, s.now + Expire(c, write));
  }

  // --------------------------------------------------------------- dispatching

  lemma FifoEmptyIff(l: Lane, latest: nat)
    requires LaneOk(l, latest)
    ensures l.fifo == [] <==> l.tree == []
    ensures l.fifo != [] ==> l.fifo[0].id in TreeIds(l.tree)
  {
    if l.tree != [] { assert l.tree[0].id in TreeIds(l.tree); }
  }

  /** The selected request is queued, and the call is idle only on empty queues. */
  lemma SelectedIsQueued(c: Config, s: Deadline)
    requires Valid(c, s)
    ensures Selected(c, s).Sent? ==> Selected(c, s).id in TreeIds(LaneOf(s, Selected(c, s).write).tree)
    ensures Selected(c, s).Idle? <==> s.read.tree == [] && s.write.tree == []
    ensures Valid(c, Counted(c, s))
  {
    FifoEmptyIff(s.read, s.now + c.readExpire);
    FifoEmptyIff(s.write, s.now + c.writeExpire);
    TreeIdsAre(s.read.tree);
    TreeIdsAre(s.write.tree);
  }

  lemma DispatchValid(c: Config, s: Deadline)
    requires Valid(c, s)
    ensures Valid(c, Dispatch(c, s))
  {
    SelectedIsQueued(c, s);
    if Selected(c, s).Sent? { MoveValid(c, Counted(c, s), Selected(c, s).write, Selected(c, s).id); }
  }

  lemma StepValid(c: Config, s: Deadline, op: Op)
    requires Valid(c, s) && Enabled(s, op)
    ensures Valid(c, Apply(c, s, op))
  {
    match op
    case Pass(_) =>
    case Add(w, n) => AddValid(c, s, w, n);
    case FrontMerge(w, n) => FrontValid(c, s, w, n);
    case MergeReqs(w, id, gone) => MergeValid(c, s, w, id, gone);
    case DispatchOne => DispatchValid(c, s);
  }

  /** In every reachable state sort_list and fifo_list hold the same requests, at most
      one next_rq is set and it is queued, and the fifos are ordered by expiry. */
  lemma {:induction false} RunValid(c: Config, s: Deadline, run: seq<Op>)
    requires Valid(c, s) && IsRun(c, s, run)
    ensures Valid(c, After(c, s, run))
    decreases |run|
  {
    if run != [] {
      StepValid(c, s, run[0]);
      RunValid(c, Apply(c, s, run[0]), run[1..]);
    }
  }

  /** Looking at the head of the fifo decides whether anything in it has expired. */
  lemma HeadDecides(c: Config, s: Deadline, write: bool)
    requires Valid(c, s) && LaneOf(s, write).fifo != []
    ensures CheckFifo(s, write) <==> exists m :: m in LaneOf(s, write).fifo && s.now > m.time
  {
    var f := LaneOf(s, write).fifo;
    assert forall m :: m in f ==> m == f[0] || m in f[1..];
    assert f[0] in f;
  }
}
