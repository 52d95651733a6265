/** The request choice of block/as-iosched.c: as_choose_req orders positions by seek
    cost, and the cached next_rq is the best queued request although
    as_find_next_rq looks only at two neighbours and the first request. */
module AsChoice {
  import opened Wrappers

  const MAXBACK := 1024 * 1024
  const BACK_PENALTY := 2

  /** A queued request: blk_rq_pos and blk_rq_sectors. */
  datatype Rq = Rq(pos: nat, sectors: nat)

  function End(r: Rq): nat { r.pos + r.sectors }

  /** as_choose_req on two requests of one direction, `last` being the sector where
      the previous one ended. */
  function ChooseReq(last: nat, rq1: Option<Rq>, rq2: Option<Rq>): (r: Option<Rq>)
    ensures r == rq1 || r == rq2
  {
    if rq1.None? || rq1 == rq2 then rq2
    else if rq2.None? then rq1
    else
      var s1, s2 := rq1.value.pos, rq2.value.pos;
      var wrap1 := s1 < last && s1 + MAXBACK < last;
      var wrap2 := s2 < last && s2 + MAXBACK < last;
      var d1 := if s1 >= last then s1 - last else if wrap1 then 0 else (last - s1) * BACK_PENALTY;
      var d2 := if s2 >= last then s2 - last else if wrap2 then 0 else (last - s2) * BACK_PENALTY;
      if !wrap1 && wrap2 then rq1
      else if !wrap2 && wrap1 then rq2
      else if wrap1 && wrap2 then if s1 <= s2 then rq1 else rq2
      else if d1 < d2 then rq1
      else if d2 < d1 then rq2
      else if s1 >= s2 then rq1 else rq2
  }

  // ------------------------------------------------ the order behind the choice

  /** The disk sweeps upwards: positions it can still reach, then the ones it must
      come back for. */
  predicate Wraps(last: nat, s: nat) { s + MAXBACK < last }

  /** Twice the seek distance, backwards counting double, one more to break ties
      against a backward seek; behind the sweep, the position itself. */
  function Cost(last: nat, s: nat): nat {
    if last <= s then 2 * (s - last)
    else if !Wraps(last, s) then 4 * (last - s) + 1
    else s
  }

  /** Position `a` is served before position `b`. */
  predicate Before(last: nat, a: nat, b: nat) {
    if Wraps(last, a) == Wraps(last, b) then Cost(last, a) < Cost(last, b) else Wraps(last, b)
  }

  /** A strict total order on positions. */
  lemma BeforeIsTotalOrder(last: nat, a: nat, b: nat, c: nat)
    ensures !Before(last, a, a)
    ensures a != b ==> (Before(last, a, b) <==> !Before(last, b, a))
    ensures Before(last, a, b) && Before(last, b, c) ==> Before(last, a, c)
  {
  }

  /** as_choose_req returns the request that comes first in that order. */
  lemma ChoiceIsFirst(last: nat, r1: Rq, r2: Rq)
    requires r1.pos != r2.pos
    ensures ChooseReq(last, Some(r1), Some(r2)) == Some(if Before(last, r1.pos, r2.pos) then r1 else r2)
    ensures ChooseReq(last, Some(r1), Some(r2)) == ChooseReq(last, Some(r2), Some(r1))
  {
  }

  // ------------------------------------------------------------ queued requests

  /** One direction: its sort_list in sector order, last_sector and next_rq. */
  datatype Side = Side(rqs: seq<Rq>, last: nat, next: Option<Rq>)

  ghost predicate Sorted(rqs: seq<Rq>) {
    forall i, j :: 0 <= i < j < |rqs| ==> rqs[i].pos < rqs[j].pos
  }

  /** `best` is the first of `rqs` in the seek order, None if there is none. */
  ghost predicate IsBest(last: nat, rqs: seq<Rq>, best: Option<Rq>) {
    if rqs == [] then best.None?
    else
      && best.Some? && best.value in rqs
      && forall i :: 0 <= i < |rqs| ==> rqs[i] == best.value || Before(last, best.value.pos, rqs[i].pos)
  }

  /** as_find_next_rq for the request at index i, before it leaves the list. */
  function FindNext(last: nat, rqs: seq<Rq>, i: nat): Option<Rq>
    requires i < |rqs|
  {
    var prev := if i > 0 then Some(rqs[i - 1]) else None;
    var next := if i + 1 < |rqs| then Some(rqs[i + 1]) else if i > 0 then Some(rqs[0]) else None;
    ChooseReq(last, next, prev)
  }

  function Without(rqs: seq<Rq>, i: nat): seq<Rq>
    requires i < |rqs|
  {
    rqs[..i] + rqs[i + 1..]
  }

  /** The neighbours of i bound everything else: from `next` on to the right, from
      `prev` on to the left. */
  ghost predicate NeighbourIsBest(last: nat, rqs: seq<Rq>, i: nat)
    requires i < |rqs|
  {
    var r := FindNext(last, rqs, i);
    if |rqs| == 1 then r.None?
    else
      && r.Some? && r.value in rqs && r.value != rqs[i]
      && forall j :: 0 <= j < |rqs| && j != i ==> rqs[j] == r.value || Before(last, r.value.pos, rqs[j].pos)
  }

  lemma WithoutBest(last: nat, rqs: seq<Rq>, i: nat)
    requires i < |rqs| && Sorted(rqs) && NeighbourIsBest(last, rqs, i)
    ensures IsBest(last, Without(rqs, i), FindNext(last, rqs, i))
  {
    var w := Without(rqs, i);
    var r := FindNext(last, rqs, i);
    if |rqs| > 1 {
      var j :| 0 <= j < |rqs| && rqs[j] == r.value;
      assert w[if j < i then j else j - 1] == rqs[j];
      forall k | 0 <= k < |w| ensures w[k] == r.value || Before(last, r.value.pos, w[k].pos) {
        assert w[k] == rqs[if k < i then k else k + 1];
      }
    }
  }

  /** If the head stands between the neighbours of i, the neighbours decide. */
  lemma NeighboursDecide(last: nat, rqs: seq<Rq>, i: nat)
    requires i < |rqs| && Sorted(rqs)
    requires i > 0 ==> rqs[i - 1].pos < last
    requires i + 1 < |rqs| ==> last <= rqs[i + 1].pos
    ensures NeighbourIsBest(last, rqs, i)
  {
    if |rqs| > 1 {
      var left := if i > 0 then i - 1 else 0;
      var right := if i + 1 < |rqs| then i + 1 else 0;
      if 0 < i { ChoiceIsFirstOrSame(last, rqs[right], rqs[left]); }
      forall j | 0 <= j < |rqs| && j != i
        ensures rqs[j] == FindNext(last, rqs, i).value || Before(last, FindNext(last, rqs, i).value.pos, rqs[j].pos)
      {
        if j < i {
          assert j < left ==> rqs[j].pos < rqs[left].pos;
          assert 0 < j ==> rqs[0].pos < rqs[j].pos;
        } else {
          assert right < j ==> rqs[right].pos < rqs[j].pos;
        }
      }
    }
  }

  lemma ChoiceIsFirstOrSame(last: nat, r1: Rq, r2: Rq)
    ensures r1 == r2 ==> ChooseReq(last, Some(r1), Some(r2)) == Some(r1)
    ensures r1.pos != r2.pos ==>
              ChooseReq(last, Some(r1), Some(r2)) == Some(if Before(last, r1.pos, r2.pos) then r1 else r2)
  {
  }

  // ------------------------------------------------------------- dispatching

  /** The next request starts inside the one at i, and the neighbours do not show the
      best one: the request after it would be served earlier, or, if the next one is
      more than MAXBACK behind the head, so are all before it, and the first of them or
      one past the wrapping ones would. */
  predicate Hidden(rqs: seq<Rq>, i: nat)
    requires i < |rqs|
  {
    var last := End(rqs[i]);
    && i + 1 < |rqs| && rqs[i + 1].pos < last
    && if Wraps(last, rqs[i + 1].pos) then i > 1 || !Wraps(last, rqs[|rqs| - 1].pos)
       else i + 2 < |rqs| && Before(last, rqs[i + 2].pos, rqs[i + 1].pos)
  }

  /** The part of as_move_to_dispatch that keeps the cache. */
  function Dispatched(s: Side, i: nat): Side
    requires i < |s.rqs|
  {
    var last := End(s.rqs[i]);
    Side(Without(s.rqs, i), last, FindNext(last, s.rqs, i))
  }

  lemma InsideIsBest(last: nat, rqs: seq<Rq>, i: nat)
    requires i + 1 < |rqs| && Sorted(rqs) && rqs[i + 1].pos < last == End(rqs[i]) && !Wraps(last, rqs[i + 1].pos)
    requires i + 2 < |rqs| ==> Before(last, rqs[i + 1].pos, rqs[i + 2].pos)
    ensures NeighbourIsBest(last, rqs, i)
  {
    var n := rqs[i + 1];
    if i > 0 { ChoiceIsFirst(last, n, rqs[i - 1]); }
    assert FindNext(last, rqs, i) == Some(n);
    forall j | 0 <= j < |rqs| && j != i ensures rqs[j] == n || Before(last, n.pos, rqs[j].pos) {
      assert j < i ==> rqs[j].pos < rqs[i].pos;
      assert i + 2 < j ==> rqs[i + 2].pos < rqs[j].pos;
    }
  }

  /** All that is left is more than MAXBACK behind the head and the first is a neighbour. */
  lemma BehindIsBest(last: nat, rqs: seq<Rq>, i: nat)
    requires i + 1 < |rqs| && i <= 1 && Sorted(rqs) && last == End(rqs[i]) && Wraps(last, rqs[|rqs| - 1].pos)
    ensures NeighbourIsBest(last, rqs, i)
  {
    var first := rqs[1 - i];
    forall j | 0 <= j < |rqs| ensures Wraps(last, rqs[j].pos) {
      assert j < |rqs| - 1 ==> rqs[j].pos < rqs[|rqs| - 1].pos;
    }
    if i == 1 { ChoiceIsFirst(last, rqs[2], rqs[0]); }
    assert FindNext(last, rqs, i) == Some(first);
    forall j | 0 <= j < |rqs| && j != i ensures rqs[j] == first || Before(last, first.pos, rqs[j].pos) {
      assert j != 1 - i ==> first.pos < rqs[j].pos;
    }
  }

  /** A queued request that is served before the one the neighbours show. */
  lemma HiddenIsMissed(last: nat, rqs: seq<Rq>, i: nat) returns (j: nat)
    requires i < |rqs| && Sorted(rqs) && last == End(rqs[i]) && Hidden(rqs, i)
    ensures j < |rqs| && j != i && FindNext(last, rqs, i).Some?
    ensures Before(last, rqs[j].pos, FindNext(last, rqs, i).value.pos)
  {
    if i > 0 { ChoiceIsFirst(last, rqs[i + 1], rqs[i - 1]); }
    if !Wraps(last, rqs[i + 1].pos) {
      j := i + 2;
    } else if Wraps(last, rqs[|rqs| - 1].pos) {
      j := 0;
    } else {
      j := |rqs| - 1;
    }
  }

  /** After dispatching the request at i the cache is the best of what is left, if
      and only if nothing is hidden behind a request starting inside it. */
  lemma DispatchKeepsBestIff(s: Side, i: nat)
    requires i < |s.rqs| && Sorted(s.rqs)
    ensures IsBest(Dispatched(s, i).last, Dispatched(s, i).rqs, Dispatched(s, i).next) <==> !Hidden(s.rqs, i)
  {
    var rqs, last := s.rqs, End(s.rqs[i]);
    if Hidden(rqs, i) {
      var j := HiddenIsMissed(last, rqs, i);
      var r := FindNext(last, rqs, i).value;
      assert Without(rqs, i)[if j < i then j else j - 1] == rqs[j];
      BeforeIsTotalOrder(last, r.pos, rqs[j].pos, 0);
    } else {
      if i + 1 < |rqs| && Wraps(last, rqs[i + 1].pos) {
        BehindIsBest(last, rqs, i);
      } else if i + 1 < |rqs| && rqs[i + 1].pos < last {
        if i + 2 < |rqs| { BeforeIsTotalOrder(last, rqs[i + 1].pos, rqs[i + 2].pos, 0); }
        InsideIsBest(last, rqs, i);
      } else {
        NeighboursDecide(last, rqs, i);
      }
      WithoutBest(last, rqs, i);
    }
  }

  /** Nothing is hidden when no queued request starts strictly inside another. */
  lemma NothingInsideNothingHidden(rqs: seq<Rq>, i: nat)
    requires i < |rqs| && forall j :: i < j < |rqs| ==> End(rqs[i]) <= rqs[j].pos
    ensures !Hidden(rqs, i)
  {
  }

  /** Two requests start inside the one at 0 and the head stops at 100: the cache
      takes 10 although 90 is nearer. */
  lemma HiddenBehindAnInnerRequest()
    ensures var s := Side([Rq(0, 100), Rq(10, 8), Rq(90, 8)], 0, Some(Rq(0, 100)));
            && Sorted(s.rqs) && IsBest(s.last, s.rqs, s.next)
            && Dispatched(s, 0).next == Some(Rq(10, 8)) && Before(100, 90, 10)
  {
  }

  // ------------------------------------------- removal, insertion and merging

  /** as_remove_queued_request: the cache moves on only if its request leaves. */
  function Removed(s: Side, i: nat): Side
    requires i < |s.rqs|
  {
    s.(rqs := Without(s.rqs, i), next := if s.next == Some(s.rqs[i]) then FindNext(s.last, s.rqs, i) else s.next)
  }

  lemma BestNeighbours(last: nat, rqs: seq<Rq>, i: nat)
    requires i < |rqs| && Sorted(rqs) && IsBest(last, rqs, Some(rqs[i]))
    ensures NeighbourIsBest(last, rqs, i)
  {
    if Wraps(last, rqs[i].pos) {
      assert i > 0 ==> Before(last, rqs[i].pos, rqs[0].pos);
      forall j | 0 < j < |rqs| ensures Wraps(last, rqs[j].pos) { assert Before(last, rqs[0].pos, rqs[j].pos); }
      forall j | 1 < j < |rqs| ensures Before(last, rqs[1].pos, rqs[j].pos) { assert rqs[1].pos < rqs[j].pos; }
    } else {
      assert i > 0 ==> Before(last, rqs[i].pos, rqs[i - 1].pos);
      assert i + 1 < |rqs| ==> Before(last, rqs[i].pos, rqs[i + 1].pos);
      NeighboursDecide(last, rqs, i);
    }
  }

  lemma RemovedKeepsBest(s: Side, i: nat)
    requires i < |s.rqs| && Sorted(s.rqs) && IsBest(s.last, s.rqs, s.next)
    ensures IsBest(s.last, Removed(s, i).rqs, Removed(s, i).next)
  {
    if s.next == Some(s.rqs[i]) {
      BestNeighbours(s.last, s.rqs, i);
      WithoutBest(s.last, s.rqs, i);
    } else {
      var w := Without(s.rqs, i);
      var j :| 0 <= j < |s.rqs| && s.rqs[j] == s.next.value;
      assert w[if j < i then j else j - 1] == s.rqs[j];
      forall k | 0 <= k < |w| ensures w[k] == s.next.value || Before(s.last, s.next.value.pos, w[k].pos) {
        assert w[k] == s.rqs[if k < i then k else k + 1];
      }
    }
  }

  lemma WithoutSorted(rqs: seq<Rq>, i: nat)
    requires i < |rqs| && Sorted(rqs)
    ensures Sorted(Without(rqs, i))
    ensures forall k :: 0 <= k < |rqs| - 1 ==> Without(rqs, i)[k] == rqs[if k < i then k else k + 1]
  {
  }

  /** Where elv_rb_add puts a request: the first index not below its position. */
  function Slot(rqs: seq<Rq>, pos: nat): (p: nat)
    ensures p <= |rqs|
    ensures forall i :: 0 <= i < p ==> rqs[i].pos < pos
    ensures p < |rqs| ==> pos <= rqs[p].pos
  {
    if rqs == [] || pos <= rqs[0].pos then 0 else 1 + Slot(rqs[1..], pos)
  }

  function Inserted(s: Side, r: Rq): Side {
    var p := Slot(s.rqs, r.pos);
    s.(rqs := s.rqs[..p] + [r] + s.rqs[p..], next := ChooseReq(s.last, Some(r), s.next))
  }

  /** as_add_rq_rb: an alias at the same position is dispatched first. */
  predicate HasAlias(s: Side, r: Rq) {
    var p := Slot(s.rqs, r.pos);
    p < |s.rqs| && s.rqs[p].pos == r.pos
  }

  function Added(s: Side, r: Rq): Side {
    Inserted(if HasAlias(s, r) then Dispatched(s, Slot(s.rqs, r.pos)) else s, r)
  }

  /** Putting `r` at p, between smaller and greater positions. */
  lemma SpliceEntries(rqs: seq<Rq>, p: nat, r: Rq)
    requires p <= |rqs| && Sorted(rqs)
    requires forall k :: 0 <= k < p ==> rqs[k].pos < r.pos
    requires forall k :: p <= k < |rqs| ==> r.pos < rqs[k].pos
    ensures Sorted(rqs[..p] + [r] + rqs[p..])
    ensures forall x :: x in rqs[..p] + [r] + rqs[p..] <==> x == r || x in rqs
  {
    var t := rqs[..p] + [r] + rqs[p..];
    assert forall k :: 0 <= k < |t| ==> t[k] == if k < p then rqs[k] else if k == p then r else rqs[k - 1];
    assert rqs == rqs[..p] + rqs[p..];
  }

  lemma BestOfMore(last: nat, rqs: seq<Rq>, t: seq<Rq>, r: Rq, best: Option<Rq>)
    requires IsBest(last, rqs, best) && forall x :: x in t <==> x == r || x in rqs
    requires forall x :: x in rqs ==> x.pos != r.pos
    ensures IsBest(last, t, ChooseReq(last, Some(r), best))
  {
    assert r in t;
    assert forall k :: 0 <= k < |t| ==> t[k] in t;
    if best.Some? {
      var b := best.value;
      ChoiceIsFirst(last, r, b);
      forall k | 0 <= k < |t| ensures t[k] == r || t[k] == b || Before(last, b.pos, t[k].pos) {
        assert t[k] in t;
        if t[k] != r {
          var j :| 0 <= j < |rqs| && rqs[j] == t[k];
        }
      }
      forall k | 0 <= k < |t| && Before(last, r.pos, b.pos) ensures t[k] == r || Before(last, r.pos, t[k].pos) {
        BeforeIsTotalOrder(last, r.pos, b.pos, t[k].pos);
      }
      BeforeIsTotalOrder(last, r.pos, b.pos, 0);
    }
  }

  lemma InsertedKeepsBest(s: Side, r: Rq)
    requires Sorted(s.rqs) && IsBest(s.last, s.rqs, s.next) && !HasAlias(s, r)
    ensures Sorted(Inserted(s, r).rqs) && IsBest(s.last, Inserted(s, r).rqs, Inserted(s, r).next)
    ensures forall x :: x in Inserted(s, r).rqs <==> x == r || x in s.rqs
  {
    var p := Slot(s.rqs, r.pos);
    assert forall k :: p < k < |s.rqs| ==> s.rqs[p].pos < s.rqs[k].pos;
    SpliceEntries(s.rqs, p, r);
    BestOfMore(s.last, s.rqs, Inserted(s, r).rqs, r, s.next);
  }

  lemma AliasGone(s: Side, r: Rq)
    requires Sorted(s.rqs) && HasAlias(s, r)
    ensures Sorted(Dispatched(s, Slot(s.rqs, r.pos)).rqs) && !HasAlias(Dispatched(s, Slot(s.rqs, r.pos)), r)
  {
    var p := Slot(s.rqs, r.pos);
    WithoutSorted(s.rqs, p);
    assert forall k :: 0 <= k < |s.rqs| && k != p ==> s.rqs[k].pos != r.pos;
  }

  /** A back merge: the request at i grows at its end. */
  function Grown(s: Side, i: nat, more: nat): Side
    requires i < |s.rqs|
  {
    var r := s.rqs[i].(sectors := s.rqs[i].sectors + more);
    s.(rqs := s.rqs[i := r], next := if s.next == Some(s.rqs[i]) then Some(r) else s.next)
  }

  lemma GrownKeepsBest(s: Side, i: nat, more: nat)
    requires i < |s.rqs| && Sorted(s.rqs) && IsBest(s.last, s.rqs, s.next)
    ensures Sorted(Grown(s, i, more).rqs) && IsBest(s.last, Grown(s, i, more).rqs, Grown(s, i, more).next)
  {
    var t := Grown(s, i, more);
    var j :| 0 <= j < |s.rqs| && s.rqs[j] == s.next.value;
    assert t.rqs[j].pos == s.rqs[j].pos && t.next == Some(t.rqs[j]);
    forall k | 0 <= k < |t.rqs| ensures t.rqs[k] == t.next.value || Before(s.last, t.next.value.pos, t.rqs[k].pos) {
      assert s.rqs[k] == s.next.value || Before(s.last, s.next.value.pos, s.rqs[k].pos);
    }
  }

  // --------------------------------------------------------------- every run

  datatype Op =
    | Add(r: Rq)
    | Dispatch(i: nat)
    | BackMerge(i: nat, more: nat)
    | MergeNext(i: nat)

  /** The operation is about queued requests; front merges are not among the operations. */
  predicate Possible(s: Side, op: Op) {
    match op
    case Add(r) => true
    case Dispatch(i) => i < |s.rqs|
    case BackMerge(i, _) => i < |s.rqs|
    case MergeNext(i) => i + 1 < |s.rqs| && End(s.rqs[i]) == s.rqs[i + 1].pos
  }

  /** No dispatch (of an alias or otherwise) hides a request. */
  predicate Enabled(s: Side, op: Op) {
    && Possible(s, op)
    && (op.Add? && HasAlias(s, op.r) ==> !Hidden(s.rqs, Slot(s.rqs, op.r.pos)))
    && (op.Dispatch? ==> !Hidden(s.rqs, op.i))
  }

  function Apply(s: Side, op: Op): Side
    requires Possible(s, op)
  {
    match op
    case Add(r) => Added(s, r)
    case Dispatch(i) => Dispatched(s, i)
    case BackMerge(i, more) => Grown(s, i, more)
    case MergeNext(i) => Removed(Grown(s, i, s.rqs[i + 1].sectors), i + 1)
  }

  predicate IsRun(s: Side, run: seq<Op>)
    decreases |run|
  {
    run == [] || (Enabled(s, run[0]) && IsRun(Apply(s, run[0]), run[1..]))
  }

  function After(s: Side, run: seq<Op>): Side
    requires IsRun(s, run)
    decreases |run|
  {
    if run == [] then s else After(Apply(s, run[0]), run[1..])
  }

  ghost predicate Good(s: Side) { Sorted(s.rqs) && IsBest(s.last, s.rqs, s.next) }

  lemma DispatchGood(s: Side, i: nat)
    requires Good(s) && i < |s.rqs| && !Hidden(s.rqs, i)
    ensures Good(Dispatched(s, i))
  {
    DispatchKeepsBestIff(s, i);
    WithoutSorted(s.rqs, i);
  }

  lemma AddGood(s: Side, r: Rq)
    requires Good(s) && Enabled(s, Add(r))
    ensures Good(Added(s, r))
  {
    var s1 := if HasAlias(s, r) then Dispatched(s, Slot(s.rqs, r.pos)) else s;
    if HasAlias(s, r) {
      AliasGone(s, r);
      DispatchGood(s, Slot(s.rqs, r.pos));
    }
    InsertedKeepsBest(s1, r);
  }

  lemma GrownGood(s: Side, i: nat, more: nat)
    requires Good(s) && i < |s.rqs|
    ensures Good(Grown(s, i, more))
  {
    GrownKeepsBest(s, i, more);
  }

  lemma MergeGood(s: Side, i: nat)
    requires Good(s) && i + 1 < |s.rqs|
    ensures Good(Removed(Grown(s, i, s.rqs[i + 1].sectors), i + 1))
  {
    var t := Grown(s, i, s.rqs[i + 1].sectors);
    GrownGood(s, i, s.rqs[i + 1].sectors);
    RemovedKeepsBest(t, i + 1);
    WithoutSorted(t.rqs, i + 1);
  }

  lemma StepGood(s: Side, op: Op)
    requires Good(s) && Enabled(s, op)
    ensures Good(Apply(s, op))
  {
    match op
    case Add(r) => AddGood(s, r);
    case Dispatch(i) => DispatchGood(s, i);
    case BackMerge(i, more) => GrownGood(s, i, more);
    case MergeNext(i) => MergeGood(s, i);
  }

  /** Over every run without front merges in which nothing gets hidden, next_rq is
      the queued request the seek order puts first. */
  lemma {:induction false} NextIsAlwaysBest(s: Side, run: seq<Op>)
    requires Good(s) && IsRun(s, run)
    ensures Good(After(s, run))
    decreases |run|
  {
    if run != [] {
      StepGood(s, run[0]);
      NextIsAlwaysBest(Apply(s, run[0]), run[1..]);
    }
  }

  /** No queued request starts inside another. */
  ghost predicate Apart(rqs: seq<Rq>) {
    forall i, j :: 0 <= i < j < |rqs| ==> End(rqs[i]) <= rqs[j].pos
  }

  /** The queued requests are apart whenever an operation starts. */
  ghost predicate StaysApart(s: Side, run: seq<Op>)
    decreases |run|
  {
    run == [] || (Apart(s.rqs) && Possible(s, run[0]) && StaysApart(Apply(s, run[0]), run[1..]))
  }

  lemma ApartEnables(s: Side, op: Op)
    requires Apart(s.rqs) && Possible(s, op)
    ensures Enabled(s, op)
  {
    match op
    case Add(r) => if HasAlias(s, r) { NothingInsideNothingHidden(s.rqs, Slot(s.rqs, r.pos)); }
    case Dispatch(i) => NothingInsideNothingHidden(s.rqs, i);
    case BackMerge(_, _) =>
    case MergeNext(_) =>
  }

  lemma {:induction false} ApartIsRun(s: Side, run: seq<Op>)
    requires StaysApart(s, run)
    ensures IsRun(s, run)
    decreases |run|
  {
    if run != [] {
      ApartEnables(s, run[0]);
      ApartIsRun(Apply(s, run[0]), run[1..]);
    }
  }

  /** While no queued request starts inside another, next_rq is always the one the seek order
      puts first. */
  lemma ApartIsAlwaysBest(s: Side, run: seq<Op>)
    requires Good(s) && StaysApart(s, run)
    ensures IsRun(s, run) && Good(After(s, run))
  {
    ApartIsRun(s, run);
    NextIsAlwaysBest(s, run);
  }
}
