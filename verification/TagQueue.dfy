/** The tag map of a queue, updated in place. */
module TagQueue {
  import opened Wrappers
  import opened Sequences
  import opened Tags

  /** find_first_zero_bit. */
  method FindFirstZero(bits: seq<bool>, n: nat) returns (t: nat)
    requires n <= |bits|
    ensures t == FirstZero(bits, 0, n)
  {
    t := 0;
    while t < n && bits[t]
      invariant 0 <= t <= n && FirstZero(bits, 0, n) == FirstZero(bits, t, n)
    {
      t := t + 1;
    }
  }

  class Queue {
    var tagMap: seq<bool>
    var tagIndex: seq<Option<nat>>
    var maxDepth: nat
    var tagBusyList: seq<nat>
    var tag: map<nat, nat>
    var queueHead: seq<nat>
    ghost var sync: map<nat, bool>
    ghost var started: nat
    ghost var stamp: map<nat, nat>
    ghost var peak: nat

    ghost function View(): Tagged
      reads this
    {
      Tagged(tagMap, tagIndex, maxDepth, tagBusyList, tag, queueHead, sync, started, stamp, peak)
    }

    /** blk_queue_start_tag; true means refused. */
    method StartTag(r: nat, isSync: bool, asyncInFlight: nat) returns (refused: bool)
      requires maxDepth <= |tagMap| == |tagIndex|
      modifies this
      ensures refused == Refuses(old(View()), isSync, asyncInFlight)
      ensures View() == if refused then old(View()) else Start(old(View()), r, isSync)
    {
      var depth := maxDepth;
      if !isSync && depth > 1 {
        depth := depth - 2;
        if depth == 0 {
          depth := 1;
        }
        if asyncInFlight > depth {
          return true;
        }
      }
      var t := FindFirstZero(tagMap, depth);
      if t >= depth {
        return true;
      }
      Give(r, t, isSync);
      refused := false;
    }

    /** The tag becomes the request's, which leaves the queue. */
    method Give(r: nat, t: nat, isSync: bool)
      requires t < |tagMap| == |tagIndex|
      modifies this
      ensures View() == old(View()).(bits := old(tagMap)[t := true], index := old(tagIndex)[t := Some(r)],
                                     busy := [r] + old(tagBusyList), tag := old(tag)[r := t],
                                     queue := Drop(old(queueHead), r),
                                     sync := old(sync)[r := isSync], started := old(started) + 1,
                                     stamp := old(stamp)[r := old(started)])
    {
      tagMap := tagMap[t := true];
      tag := tag[r := t];
      tagIndex := tagIndex[t := Some(r)];
      queueHead := Drop(queueHead, r);
      tagBusyList := [r] + tagBusyList;
      sync, stamp, started := sync[r := isSync], stamp[r := started], started + 1;
    }

    /** blk_queue_end_tag: the request's tag is free again, the others keep theirs, and the
        map agrees with the index. */
    method EndTag(r: nat)
      requires r in tag && |tagMap| == |tagIndex|
      modifies this`tagMap, this`tagIndex, this`tagBusyList, this`tag, this`sync
      ensures View() == End(old(View()), r)
      ensures old(Valid(View())) ==>
                && Valid(View()) && tag == old(tag) - {r}
                && old(tag)[r] < |tagMap| && !tagMap[old(tag)[r]] && tagIndex[old(tag)[r]].None?
    {
      if Valid(View()) {
        EndValid(View(), r);
      }
      var t := tag[r];
      if t >= |tagIndex| {
        return;
      }
      tagBusyList := Drop(tagBusyList, r);
      tag := tag - {r};
      tagIndex := tagIndex[t := None];
      tagMap := tagMap[t := false];
      sync := sync - {r};
    }

    /** blk_queue_resize_tags with init_tag_map: the old map is copied into the new. */
    method ResizeTags(depth: nat, cap: nat)
      requires |tagMap| == |tagIndex| && (depth > |tagMap| ==> cap >= |tagMap|)
      modifies this`tagMap, this`tagIndex, this`maxDepth, this`peak
      ensures View() == Resize(old(View()), depth, cap)
    {
      if depth <= |tagMap| {
        maxDepth := depth;
        peak := Larger(peak, AsyncLimit(depth));
        return;
      }
      var d := if depth > cap then cap else depth;
      var newIndex: seq<Option<nat>>, newMap := seq(d, _ => None), seq(d, _ => false);
      for i := 0 to |tagMap|
        invariant |newIndex| == d && |newMap| == d
        invariant forall k :: 0 <= k < i ==> newIndex[k] == tagIndex[k] && newMap[k] == tagMap[k]
        invariant forall k :: i <= k < d ==> newIndex[k] == None && !newMap[k]
      {
        newIndex := newIndex[i := tagIndex[i]];
        newMap := newMap[i := tagMap[i]];
      }
      assert newMap == tagMap + seq(d - |tagMap|, _ => false);
      assert newIndex == tagIndex + seq(d - |tagMap|, _ => None);
      tagIndex, tagMap, maxDepth := newIndex, newMap, d;
      peak := Larger(peak, AsyncLimit(d));
    }

    /** blk_queue_invalidate_tags while no barrier is active: afterwards no tag is out, and
        the requests are back in front of the queue, earliest issued first. */
    method InvalidateTags()
      requires Valid(View())
      modifies this`tagMap, this`tagIndex, this`tagBusyList, this`tag, this`sync, this`queueHead
      ensures Emptied(View()) && queueHead == Reversed(old(tagBusyList)) + old(queueHead)
      ensures OldestFirst(Reversed(old(tagBusyList)), stamp)
    {
      ReversedIsIssueOrder(tagBusyList, stamp);
      while tagBusyList != []
        invariant Valid(View())
        invariant Reversed(tagBusyList) + queueHead == Reversed(old(tagBusyList)) + old(queueHead)
        decreases |tagBusyList|
      {
        var r := tagBusyList[0];
        assert r in tagBusyList;
        EndValid(View(), r);
        ReversedFirst(tagBusyList, queueHead);
        EndTag(r);
        queueHead := [r] + queueHead;
      }
      NothingBusy(View());
    }
  }
}
