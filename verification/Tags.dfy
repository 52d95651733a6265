/** The tag allocator of block/blk-tag.c: one bit, one index entry and one busy request
    for every tag handed out, and tags kept back for synchronous requests. */
module Tags {
  import opened Wrappers
  import opened Sequences

  /** blk_queue_tag and its queue: tag_map, tag_index (both real_max_depth long),
      max_depth, tag_busy_list, the tags of started requests (rq->tag with REQ_QUEUED), and
      queue_head.  `sync` tells rq_is_sync of the tagged requests; `started` counts starts,
      `stamp` remembers when a request was started, `peak` is the largest number of tags
      that has been open to asynchronous requests. */
  datatype Tagged = Tagged(bits: seq<bool>, index: seq<Option<nat>>, maxDepth: nat, busy: seq<nat>, tag: map<nat, nat>,
                           queue: seq<nat>, sync: map<nat, bool>, started: nat, stamp: map<nat, nat>, peak: nat)

  /** init_tag_map. */
  function Init(depth: nat, queue: seq<nat>): Tagged {
    Tagged(seq(depth, _ => false), seq(depth, _ => None), depth, [], map[], queue, map[], 0, map[], AsyncLimit(depth))
  }

  /** How many tags an asynchronous request may look at. */
  function AsyncLimit(depth: nat): nat { if depth <= 1 then depth else if depth == 2 then 1 else depth - 2 }

  function Limit(s: Tagged, sync: bool): nat { if sync then s.maxDepth else AsyncLimit(s.maxDepth) }

  /** find_first_zero_bit: the first free tag below n, or n. */
  function FirstZero(bits: seq<bool>, i: nat, n: nat): (t: nat)
    requires i <= n <= |bits|
    ensures i <= t <= n && (t < n ==> !bits[t]) && forall k :: i <= k < t ==> bits[k]
    decreases n - i
  {
    if i == n || !bits[i] then i else FirstZero(bits, i + 1, n)
  }

  /** blk_queue_start_tag refuses. */
  predicate Refuses(s: Tagged, sync: bool, asyncInFlight: nat)
    requires s.maxDepth <= |s.bits|
  {
    || (!sync && s.maxDepth > 1 && asyncInFlight > Limit(s, sync))
    || FirstZero(s.bits, 0, Limit(s, sync)) >= Limit(s, sync)
  }

  /** blk_queue_start_tag with a tag to give; blk_start_request takes the request off the
      queue. */
  function Start(s: Tagged, r: nat, sync: bool): Tagged
    requires s.maxDepth <= |s.bits| == |s.index| && FirstZero(s.bits, 0, Limit(s, sync)) < Limit(s, sync)
  {
    var t := FirstZero(s.bits, 0, Limit(s, sync));
    s.(bits := s.bits[t := true], index := s.index[t := Some(r)], busy := [r] + s.busy, tag := s.tag[r := t],
       queue := Drop(s.queue, r), sync := s.sync[r := sync], started := s.started + 1, stamp := s.stamp[r := s.started])
  }

  /** blk_queue_end_tag; its early return is for tags beyond real_max_depth. */
  function End(s: Tagged, r: nat): Tagged
    requires r in s.tag
  {
    var t := s.tag[r];
    if t >= |s.index| || t >= |s.bits| then s
    else s.(bits := s.bits[t := false], index := s.index[t := None], busy := Drop(s.busy, r), tag := s.tag - {r},
            sync := s.sync - {r})
  }

  /** blk_queue_resize_tags of an unshared map, when memory is available; `cap` is what
      init_tag_map clamps to. */
  function Resize(s: Tagged, depth: nat, cap: nat): Tagged
    requires |s.bits| == |s.index|
  {
    if depth <= |s.bits| then s.(maxDepth := depth, peak := Larger(s.peak, AsyncLimit(depth)))
    else
      var d := if depth > cap then cap else depth;
      var more := if d >= |s.bits| then d - |s.bits| else 0;
      s.(bits := s.bits + seq(more, _ => false), index := s.index + seq(more, _ => None), maxDepth := d,
         peak := Larger(s.peak, AsyncLimit(d)))
  }

  function Larger(a: nat, b: nat): nat { if a > b then a else b }

  /** blk_requeue_request of a tagged request, no barrier being active: in front of the
      queue. */
  function Requeue(s: Tagged, r: nat): Tagged
    requires r in s.tag
  {
    var s1 := End(s, r);
    s1.(queue := [r] + s1.queue)
  }

  /** blk_queue_invalidate_tags: the busy list is gone through from its head. */
  function Invalidate(s: Tagged, rs: seq<nat>): Tagged
    decreases |rs|
  {
    if rs == [] then s else Invalidate(if rs[0] in s.tag then Requeue(s, rs[0]) else s, rs[1..])
  }

  // -------------------------------------------------------------- the invariant

  /** A bit is set iff its index entry is a started request with that tag. */
  ghost predicate TagsAgree(s: Tagged) {
    && s.maxDepth <= |s.bits| == |s.index|
    && (forall t :: 0 <= t < |s.bits| ==> (s.bits[t] <==> s.index[t].Some?))
    && (forall t :: 0 <= t < |s.bits| && s.index[t].Some? ==> s.index[t].value in s.tag && s.tag[s.index[t].value] == t)
    && (forall r :: r in s.tag ==> s.tag[r] < |s.bits| && s.index[s.tag[r]] == Some(r))
  }

  /** Latest started first. */
  ghost predicate NewestFirst(busy: seq<nat>, stamp: map<nat, nat>) {
    busy == []
    || (busy[0] in stamp && NewestFirst(busy[1..], stamp)
        && forall r :: r in busy[1..] ==> r in stamp && stamp[r] < stamp[busy[0]])
  }

  /** The busy list holds the tagged requests, the latest started first. */
  ghost predicate BusyAgrees(busy: seq<nat>, tagged: set<nat>, stamp: map<nat, nat>, started: nat) {
    && (forall r :: r in busy <==> r in tagged) && NewestFirst(busy, stamp)
    && (forall r :: r in stamp ==> stamp[r] < started)
  }

  /** No asynchronous request holds a tag that was never open to it. */
  ghost predicate Reserved(tag: map<nat, nat>, sync: map<nat, bool>, peak: nat) {
    sync.Keys == tag.Keys && forall r :: r in tag && !sync[r] ==> tag[r] < peak
  }

  ghost predicate Valid(s: Tagged) {
    && TagsAgree(s) && BusyAgrees(s.busy, s.tag.Keys, s.stamp, s.started)
    && Reserved(s.tag, s.sync, s.peak) && AsyncLimit(s.maxDepth) <= s.peak
  }

  lemma {:induction false} DropNewest(l: seq<nat>, x: nat, stamp: map<nat, nat>)
    requires NewestFirst(l, stamp)
    ensures NewestFirst(Drop(l, x), stamp) && forall y :: y in Drop(l, x) <==> y in l && y != x
  {
    if l != [] {
      assert forall y :: y in l <==> y == l[0] || y in l[1..];
      if l[0] != x {
        DropNewest(l[1..], x, stamp);
        var d := Drop(l[1..], x);
        assert ([l[0]] + d)[1..] == d;
      }
    }
  }

  lemma {:induction false} LaterStamps(l: seq<nat>, stamp: map<nat, nat>, r: nat, n: nat)
    requires NewestFirst(l, stamp) && r !in l
    ensures NewestFirst(l, stamp[r := n])
  {
    if l != [] {
      assert l[0] in l && forall y :: y in l[1..] ==> y in l;
      LaterStamps(l[1..], stamp, r, n);
    }
  }

  lemma StartTags(s: Tagged, r: nat, sync: bool)
    requires TagsAgree(s) && r !in s.tag && FirstZero(s.bits, 0, Limit(s, sync)) < Limit(s, sync)
    ensures TagsAgree(Start(s, r, sync))
  {
  }

  lemma {:induction false} AllStamped(l: seq<nat>, stamp: map<nat, nat>)
    requires NewestFirst(l, stamp)
    ensures forall r :: r in l ==> r in stamp
  {
    assert l != [] ==> forall y :: y in l <==> y == l[0] || y in l[1..];
  }

  lemma PushBusy(busy: seq<nat>, tagged: set<nat>, stamp: map<nat, nat>, started: nat, r: nat)
    requires BusyAgrees(busy, tagged, stamp, started) && r !in tagged
    ensures BusyAgrees([r] + busy, tagged + {r}, stamp[r := started], started + 1)
  {
    LaterStamps(busy, stamp, r, started);
    AllStamped(busy, stamp);
    assert ([r] + busy)[1..] == busy;
    assert forall x :: x in [r] + busy <==> x == r || x in busy;
  }

  lemma DropBusy(busy: seq<nat>, tagged: set<nat>, stamp: map<nat, nat>, started: nat, r: nat)
    requires BusyAgrees(busy, tagged, stamp, started)
    ensures BusyAgrees(Drop(busy, r), tagged - {r}, stamp, started)
  {
    DropNewest(busy, r, stamp);
  }

  lemma StartOthers(s: Tagged, r: nat, sync: bool)
    requires s.maxDepth <= |s.bits| == |s.index| && AsyncLimit(s.maxDepth) <= s.peak
    requires BusyAgrees(s.busy, s.tag.Keys, s.stamp, s.started) && Reserved(s.tag, s.sync, s.peak)
    requires r !in s.tag && FirstZero(s.bits, 0, Limit(s, sync)) < Limit(s, sync)
    ensures var s' := Start(s, r, sync);
            BusyAgrees(s'.busy, s'.tag.Keys, s'.stamp, s'.started) && Reserved(s'.tag, s'.sync, s'.peak)
  {
    PushBusy(s.busy, s.tag.Keys, s.stamp, s.started, r);
    assert Start(s, r, sync).tag.Keys == s.tag.Keys + {r};
  }

  lemma StartValid(s: Tagged, r: nat, sync: bool)
    requires Valid(s) && r !in s.tag && FirstZero(s.bits, 0, Limit(s, sync)) < Limit(s, sync)
    ensures Valid(Start(s, r, sync)) && r in Start(s, r, sync).tag
    ensures var t := Start(s, r, sync).tag[r];
            && t < Limit(s, sync) && !s.bits[t] && (forall k :: 0 <= k < t ==> s.bits[k])
            && Start(s, r, sync).tag == s.tag[r := t]
  {
    StartTags(s, r, sync);
    StartOthers(s, r, sync);
  }

  lemma EndTags(s: Tagged, r: nat)
    requires TagsAgree(s) && r in s.tag
    ensures TagsAgree(End(s, r))
  {
  }

  lemma EndValid(s: Tagged, r: nat)
    requires Valid(s) && r in s.tag
    ensures Valid(End(s, r)) && End(s, r).tag == s.tag - {r} && End(s, r).busy == Drop(s.busy, r)
    ensures s.tag[r] < |s.bits| && End(s, r).bits == s.bits[s.tag[r] := false]
  {
    EndTags(s, r);
    DropBusy(s.busy, s.tag.Keys, s.stamp, s.started, r);
    assert End(s, r).tag.Keys == s.tag.Keys - {r};
  }

  lemma ResizeValid(s: Tagged, depth: nat, cap: nat)
    requires Valid(s) && (depth > |s.bits| ==> cap >= |s.bits|)
    ensures Valid(Resize(s, depth, cap))
  {
  }

  /** A synchronous request is refused only when every tag from `peak` on is held by a
      synchronous request. */
  lemma RefusedSync(s: Tagged, asyncInFlight: nat, t: nat)
    requires Valid(s) && Refuses(s, true, asyncInFlight) && s.peak <= t < s.maxDepth
    ensures s.index[t].Some? && s.index[t].value in s.sync && s.sync[s.index[t].value]
  {
  }

  // ----------------------------------------------------------------- invalidating

  function Reversed(l: seq<nat>): seq<nat> { if l == [] then [] else Reversed(l[1..]) + [l[0]] }

  lemma NothingBusy(s: Tagged)
    requires Valid(s) && s.busy == []
    ensures s.tag == map[] && forall t :: 0 <= t < |s.bits| ==> !s.bits[t]
  {
    assert s.tag.Keys == {};
  }

  /** One round of the walk. */
  lemma RequeueFirst(s: Tagged) returns (s1: Tagged)
    requires Valid(s) && s.busy != []
    ensures Valid(s1) && s1.busy == s.busy[1..] && s1.queue == [s.busy[0]] + s.queue
    ensures Invalidate(s, s.busy) == Invalidate(s1, s1.busy)
  {
    assert s.busy[0] in s.busy;
    EndValid(s, s.busy[0]);
    s1 := Requeue(s, s.busy[0]);
  }

  /** No tag is out. */
  ghost predicate Emptied(s: Tagged) {
    Valid(s) && s.busy == [] && s.tag == map[] && forall t :: 0 <= t < |s.bits| ==> !s.bits[t]
  }

  lemma ReversedFirst(l: seq<nat>, rest: seq<nat>)
    requires l != []
    ensures Reversed(l[1..]) + ([l[0]] + rest) == Reversed(l) + rest
  {
  }

  /** Invalidating empties the tag map and puts the requests back in front of the queue,
      the busy list turned round. */
  lemma InvalidateReturns(s: Tagged)
    requires Valid(s)
    ensures Emptied(Invalidate(s, s.busy)) && Invalidate(s, s.busy).queue == Reversed(s.busy) + s.queue
  {
    var s1 := s;
    while s1.busy != []
      invariant Valid(s1) && Invalidate(s, s.busy) == Invalidate(s1, s1.busy)
      invariant Reversed(s1.busy) + s1.queue == Reversed(s.busy) + s.queue
      decreases |s1.busy|
    {
      ReversedFirst(s1.busy, s1.queue);
      s1 := RequeueFirst(s1);
    }
    NothingBusy(s1);
  }

  /** Earliest started first. */
  ghost predicate OldestFirst(l: seq<nat>, stamp: map<nat, nat>) {
    && (forall i :: 0 <= i < |l| ==> l[i] in stamp)
    && (forall i, j :: 0 <= i < j < |l| ==> stamp[l[i]] < stamp[l[j]])
  }

  /** Turned round, the busy list is in the order of issue. */
  lemma {:induction false} ReversedIsIssueOrder(l: seq<nat>, stamp: map<nat, nat>)
    requires NewestFirst(l, stamp)
    ensures OldestFirst(Reversed(l), stamp) && forall x :: x in Reversed(l) <==> x in l
  {
    if l != [] {
      ReversedIsIssueOrder(l[1..], stamp);
      var v := Reversed(l[1..]);
      assert forall x :: x in l <==> x == l[0] || x in l[1..];
      assert forall i :: 0 <= i < |v| ==> v[i] in v;
    }
  }

  // ------------------------------------------------------------------ every run

  datatype Op =
    | Arrive(r: nat)
    | StartOne(r: nat, sync: bool, asyncInFlight: nat)
    | EndOne(r: nat)
    | ResizeTo(depth: nat, cap: nat)
    | InvalidateAll

  predicate Enabled(s: Tagged, op: Op) {
    match op
    case Arrive(r) => r !in s.tag
    case StartOne(r, _, _) => r !in s.tag
    case EndOne(r) => r in s.tag
    case ResizeTo(depth, cap) => depth > |s.bits| ==> cap >= |s.bits|
    case InvalidateAll => true
  }

  ghost function Apply(s: Tagged, op: Op): Tagged
    requires Valid(s) && Enabled(s, op)
  {
    match op
    case Arrive(r) => s.(queue := s.queue + [r])
    case StartOne(r, sync, n) => if Refuses(s, sync, n) then s else Start(s, r, sync)
    case EndOne(r) => End(s, r)
    case ResizeTo(depth, cap) => Resize(s, depth, cap)
    case InvalidateAll => Invalidate(s, s.busy)
  }

  lemma StepValid(s: Tagged, op: Op)
    requires Valid(s) && Enabled(s, op)
    ensures Valid(Apply(s, op))
    ensures !op.ResizeTo? ==> Apply(s, op).maxDepth == s.maxDepth && Apply(s, op).peak == s.peak
  {
    match op
    case Arrive(r) =>
    case StartOne(r, sync, n) => if !Refuses(s, sync, n) { StartValid(s, r, sync); }
    case EndOne(r) => EndValid(s, r);
    case ResizeTo(depth, cap) => ResizeValid(s, depth, cap);
    case InvalidateAll =>
      InvalidateReturns(s);
      InvalidateKeepsDepth(s, s.busy);
  }

  lemma {:induction false} InvalidateKeepsDepth(s: Tagged, rs: seq<nat>)
    ensures Invalidate(s, rs).maxDepth == s.maxDepth && Invalidate(s, rs).peak == s.peak
    decreases |rs|
  {
    if rs != [] { InvalidateKeepsDepth(if rs[0] in s.tag then Requeue(s, rs[0]) else s, rs[1..]); }
  }

  ghost predicate Reaches(s: Tagged, run: seq<Op>, s': Tagged)
    requires Valid(s)
    decreases |run|
  {
    if run == [] then s' == s
    else
      Enabled(s, run[0]) &&
      (StepValid(s, run[0]);
       Reaches(Apply(s, run[0]), run[1..], s'))
  }

  lemma {:induction false} RunValid(s: Tagged, run: seq<Op>, s': Tagged)
    requires Valid(s) && Reaches(s, run, s')
    ensures Valid(s')
    ensures (forall i :: 0 <= i < |run| ==> !run[i].ResizeTo?) ==> s'.maxDepth == s.maxDepth && s'.peak == s.peak
    decreases |run|
  {
    if run != [] {
      StepValid(s, run[0]);
      RunValid(Apply(s, run[0]), run[1..], s');
    }
  }

  lemma InitValid(depth: nat, queue: seq<nat>)
    ensures Valid(Init(depth, queue))
  {
  }

  /** A state reached from blk_queue_init_tags. */
  ghost predicate Reachable(depth: nat, queue: seq<nat>, run: seq<Op>, s: Tagged) {
    InitValid(depth, queue);
    Reaches(Init(depth, queue), run, s)
  }

  lemma ReachableValid(depth: nat, queue: seq<nat>, run: seq<Op>, s: Tagged)
    requires Reachable(depth, queue, run, s)
    ensures Valid(s)
    ensures (forall i :: 0 <= i < |run| ==> !run[i].ResizeTo?) ==>
              s.maxDepth == Init(depth, queue).maxDepth && s.peak == Init(depth, queue).peak
  {
    InitValid(depth, queue);
    RunValid(Init(depth, queue), run, s);
  }

  /** The synchronous requests that hold a tag. */
  function SyncHolders(s: Tagged): set<nat> { set r | r in s.sync && s.sync[r] }

  /** At a constant depth of two or more a synchronous request is refused only if
      synchronous requests hold two tags, or the one that depth two reserves. */
  lemma SyncIsNotStarved(depth: nat, queue: seq<nat>, run: seq<Op>, s: Tagged, asyncInFlight: nat)
    requires depth >= 2 && (forall i :: 0 <= i < |run| ==> !run[i].ResizeTo?)
    requires Reachable(depth, queue, run, s) && (ReachableValid(depth, queue, run, s); Refuses(s, true, asyncInFlight))
    ensures |SyncHolders(s)| >= if depth == 2 then 1 else 2
  {
    ReachableValid(depth, queue, run, s);
    RefusedSync(s, asyncInFlight, depth - 1);
    var a := s.index[depth - 1].value;
    if depth > 2 {
      RefusedSync(s, asyncInFlight, depth - 2);
      var b := s.index[depth - 2].value;
      assert a != b;
      AtLeastTwo(SyncHolders(s), a, b);
    } else {
      assert a in SyncHolders(s);
    }
  }

  lemma AtLeastTwo(x: set<nat>, a: nat, b: nat)
    requires a in x && b in x && a != b
    ensures |x| >= 2
  {
    assert |x - {a}| == |x| - 1 && b in x - {a};
  }
}
