/** The queue's merging state as an object: the hash walk, the bio walk and
    __make_request, updating requests and chains in place. */
module MergeQueue {
  import opened Wrappers
  import opened MergeModel
  import opened MergeProofs

  /** blk_rq_set_mixed_merge: the walk over the bios. */
  method SetMixedMerge(r: Req) returns (m: Req)
    ensures m == SetMixed(r)
  {
    if r.mixed {
      return r;
    }
    var bios: seq<Bio> := [];
    while |bios| < |r.bios|
      invariant |bios| <= |r.bios|
      invariant forall i :: 0 <= i < |bios| ==> bios[i] == r.bios[i].(ff := r.bios[i].ff + r.ff)
      decreases |r.bios| - |bios|
    {
      var bio := r.bios[|bios|];
      bios := bios + [bio.(ff := bio.ff + r.ff)];
    }
    m := r.(bios := bios, mixed := true);
    assert m.bios == SetMixed(r).bios;
  }

  /** The loop of elv_rqhash_find over one chain: what stays linked and what is found. */
  method WalkChain(rqs: map<nat, Req>, l: seq<nat>, offset: nat) returns (left: seq<nat>, r: Option<nat>)
    requires forall id :: id in l ==> id in rqs
    ensures left == Kept(rqs, l, offset) && r == Found(rqs, l, offset)
  {
    var rest := l;
    left := [];
    while rest != []
      invariant forall id :: id in rest ==> id in rqs
      invariant Kept(rqs, l, offset) == left + Kept(rqs, rest, offset)
      invariant Found(rqs, l, offset) == Found(rqs, rest, offset)
    {
      if rqs[rest[0]].ok {
        if End(rqs[rest[0]]) == offset {
          return left + rest, Some(rest[0]);
        }
        left := left + [rest[0]];
      }
      rest := rest[1..];
    }
    r := None;
  }

  /** The bios of two requests in one chain. */
  method JoinBios(r: Req, n: Req) returns (j: Req)
    ensures j == Joined(r, n)
  {
    var n1 := n;
    j := r;
    if r.mixed || n.mixed || r.ff != n.ff {
      j := SetMixedMerge(r);
      n1 := SetMixedMerge(n);
    }
    j := j.(bios := j.bios + n1.bios, sectors := r.sectors + n.sectors);
  }

  class RequestQueue {
    const h: nat -> nat
    var rqs: map<nat, Req>
    var out: map<nat, Req>
    var slots: seq<seq<nat>>
    var last: Option<nat>
    ghost var owner: map<nat, nat>
    ghost var pieces: map<nat, Piece>

    ghost function View(): Queue
      reads this
    {
      Queue(rqs, out, slots, last, owner, pieces)
    }

    constructor (h: nat -> nat, entries: nat)
      requires forall x :: h(x) < entries
      ensures this.h == h && View() == Init(entries) && Valid(h, View())
    {
      this.h := h;
      rqs, out, last := map[], map[], None;
      slots := seq(entries, _ => []);
      owner, pieces := map[], map[];
      new;
      InitValid(h, entries);
    }

    /** elv_rqhash_find: one walk along the chain, unlinking what cannot be merged any
        more.  It finds a mergeable request ending at `offset` iff the elevator has one. */
    method RqHashFind(offset: nat) returns (r: Option<nat>)
      requires HashOk(h, rqs, slots)
      modifies this`slots
      ensures slots == old(slots)[h(offset) := Kept(rqs, old(slots)[h(offset)], offset)]
      ensures r == Found(rqs, old(slots)[h(offset)], offset)
      ensures r.Some? <==> exists id :: id in rqs && rqs[id].ok && End(rqs[id]) == offset
    {
      FindIsScan(h, rqs, slots, offset);
      var kept;
      kept, r := WalkChain(rqs, slots[h(offset)], offset);
      slots := slots[h(offset) := kept];
    }

    /** elv_rqhash_del. */
    method RqHashDel(id: nat)
      modifies this`slots
      ensures slots == HashDel(old(slots), id)
    {
      var b := 0;
      while b < |slots|
        invariant 0 <= b <= |slots| == |old(slots)|
        invariant forall i :: 0 <= i < |slots| ==>
                    slots[i] == if i < b then Without(old(slots)[i], id) else old(slots)[i]
        decreases |old(slots)| - b
      {
        slots := slots[b := Without(slots[b], id)];
        b := b + 1;
      }
    }

    method RqHashReposition(id: nat)
      requires id in rqs && h(End(rqs[id])) < |slots|
      modifies this`slots
      ensures slots == HashAdd(HashDel(old(slots), id), h(End(rqs[id])), id)
    {
      RqHashDel(id);
      slots := slots[h(End(rqs[id])) := [id] + slots[h(End(rqs[id]))]];
    }

    /** elv_merge. */
    method Merge(b: Bio, e: Env) returns (p: Place)
      requires Valid(h, View()) && Fits(h, View())
      modifies this`slots
      ensures (View(), p) == ElvMerge(h, old(View()), b, e)
    {
      if last.Some? {
        var r := rqs[last.value];
        if r.ok && last.value in e.allow {
          if End(r) == b.sector {
            return Back(last.value);
          }
          if r.pos == b.sector + b.sectors {
            return Front(last.value);
          }
        }
      }
      if e.nomerges {
        return NoMerge;
      }
      var found := RqHashFind(b.sector);
      if found.Some? && found.value in e.allow {
        return Back(found.value);
      }
      p := if e.front.Some? then Front(e.front.value) else NoMerge;
    }

    /** attempt_merge: `gone` joins `id` if the tests pass. */
    method AttemptMerge(id: nat, gone: nat, e: Env) returns (done: bool)
      requires id in rqs && gone in rqs && id != gone && forall x :: h(x) < |slots|
      modifies this`rqs, this`slots, this`last, this`owner
      ensures done == Joins(old(View()), id, gone, e)
      ensures View() == if done then Join(h, old(View()), id, gone) else old(View())
    {
      var r, n := rqs[id], rqs[gone];
      if !r.ok || !n.ok || End(r) != n.pos || !e.joins {
        return false;
      }
      r := JoinBios(r, n);
      rqs := rqs[id := r];
      RqHashReposition(id);
      RqHashDel(gone);
      rqs := rqs - {gone};
      last := Some(id);
      owner := map x | x in owner :: if owner[x] == gone then id else owner[x];
      done := true;
    }

    ghost method Take(id: nat, b: Bio)
      modifies this`owner, this`pieces
      ensures owner == old(owner)[b.id := id] && pieces == old(pieces)[b.id := Piece(b.sector, b.sectors, b.ff)]
    {
      owner := owner[b.id := id];
      pieces := pieces[b.id := Piece(b.sector, b.sectors, b.ff)];
    }

    /** The ELEVATOR_BACK_MERGE case. */
    method BackMerge(id: nat, b: Bio, e: Env)
      requires id in rqs && (forall x :: h(x) < |slots|)
      requires e.neighbour.Some? ==> e.neighbour.value in rqs && e.neighbour.value != id
      modifies this`rqs, this`slots, this`last, this`owner, this`pieces
      ensures View() == TakeBack(h, old(View()), id, b, e)
    {
      var r := rqs[id];
      if r.ff != b.ff {
        r := SetMixedMerge(r);
      }
      r := r.(bios := r.bios + [b], sectors := r.sectors + b.sectors);
      rqs := rqs[id := r];
      Take(id, b);
      var done := false;
      if e.neighbour.Some? {
        done := AttemptMerge(id, e.neighbour.value, e);
      }
      if !done {
        RqHashReposition(id);
        last := Some(id);
      }
    }

    /** The ELEVATOR_FRONT_MERGE case. */
    method FrontMerge(id: nat, b: Bio, e: Env)
      requires id in rqs && (forall x :: h(x) < |slots|)
      requires e.neighbour.Some? ==> e.neighbour.value in rqs && e.neighbour.value != id
      modifies this`rqs, this`slots, this`last, this`owner, this`pieces
      ensures View() == TakeFront(h, old(View()), id, b, e)
    {
      var r := rqs[id];
      if r.ff != b.ff {
        r := SetMixedMerge(r);
        r := r.(ff := b.ff);
      }
      r := r.(bios := [b] + r.bios, pos := b.sector, sectors := r.sectors + b.sectors);
      rqs := rqs[id := r];
      Take(id, b);
      var done := false;
      if e.neighbour.Some? {
        done := AttemptMerge(e.neighbour.value, id, e);
      }
      if !done {
        last := Some(id);
      }
    }

    /** get_rq and elv_insert. */
    method AddRequest(b: Bio, e: Env)
      requires Fits(h, View())
      modifies this
      ensures View() == NewRequest(h, old(View()), b, e)
    {
      var r := Req([b], b.sector, b.sectors, e.newOk, e.newFf, false);
      owner := owner[b.id := e.newId];
      pieces := pieces[b.id := Piece(b.sector, b.sectors, e.newFf)];
      if e.barrier {
        out := out[e.newId := r];
      } else {
        rqs := rqs[e.newId := r];
        if r.ok {
          slots := slots[h(End(r)) := [e.newId] + slots[h(End(r))]];
          if last.None? {
            last := Some(e.newId);
          }
        }
      }
    }

    method SetNoMerge(id: nat)
      requires id in rqs
      modifies this`rqs, this`last
      ensures View() == Refused(old(View()), id)
    {
      rqs := rqs[id := rqs[id].(ok := false)];
      if last == Some(id) {
        last := None;
      }
    }

    /** The switch of __make_request. */
    method Place(p: Place, b: Bio, e: Env)
      requires Fits(h, View()) && EnvOk(View(), b, e) && (p != NoMerge ==> p.id in rqs && e.neighbour != Some(p.id))
      modifies this
      ensures View() == PlaceBio(h, old(View()), p, b, e)
    {
      if p != NoMerge {
        if e.fits {
          if p.Back? {
            BackMerge(p.id, b, e);
          } else {
            FrontMerge(p.id, b, e);
          }
          return;
        }
        SetNoMerge(p.id);
      }
      AddRequest(b, e);
    }

    /** __make_request. */
    method SubmitBio(b: Bio, e: Env)
      requires Valid(h, View()) && Fits(h, View()) && Enabled(h, View(), Submit(b, e))
      modifies this
      ensures View() == MakeRequest(h, old(View()), b, e)
    {
      if e.barrier {
        AddRequest(b, e);
        return;
      }
      MergeIsAdjacent(h, View(), b, e);
      var p := Merge(b, e);
      ValidFits(h, View());
      Place(p, b, e);
    }
  }
}
