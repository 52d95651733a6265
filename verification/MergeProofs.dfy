/** Merging moves bios between requests but neither loses, duplicates nor alters any,
    and the hash finds what a scan of the queue would find. */
module MergeProofs {
  import opened Wrappers
  import opened Sequences
  import opened MergeModel

  // ------------------------------------------------------- what a request stands for

  /** The bios cover the sectors from `start` to `end` without gap or overlap. */
  predicate Tiles(bios: seq<Bio>, start: nat, end: nat) {
    if bios == [] then start == end
    else bios[0].sector == start && Tiles(bios[1..], start + bios[0].sectors, end)
  }

  predicate ReqOk(r: Req) {
    && r.bios != [] && Tiles(r.bios, r.pos, End(r))
    && (r.mixed ==> r.ff <= r.bios[0].ff)
    && (!r.mixed ==> forall b :: b in r.bios ==> b.ff <= r.ff)
  }

  datatype Entry = Entry(id: nat, piece: Piece)

  /** A bio of the request with the failfast flags that hold for it: its own once the
      request is a mixed merge, the request's otherwise. */
  function EntryOf(r: Req, b: Bio): Entry {
    Entry(b.id, Piece(b.sector, b.sectors, if r.mixed then b.ff else r.ff))
  }

  function Content(r: Req): seq<Entry> {
    seq(|r.bios|, i requires 0 <= i < |r.bios| => EntryOf(r, r.bios[i]))
  }

  lemma {:induction false} TilesAppend(a: seq<Bio>, b: seq<Bio>, start: nat, mid: nat, end: nat)
    requires Tiles(a, start, mid) && Tiles(b, mid, end)
    ensures Tiles(a + b, start, end)
  {
    if a == [] {
      assert a + b == b;
    } else {
      assert (a + b)[1..] == a[1..] + b;
      TilesAppend(a[1..], b, start + a[0].sectors, mid, end);
    }
  }

  lemma {:induction false} TilesIgnoresFlags(a: seq<Bio>, b: seq<Bio>, start: nat, end: nat)
    requires Tiles(a, start, end) && |a| == |b|
    requires forall i :: 0 <= i < |a| ==> b[i].sector == a[i].sector && b[i].sectors == a[i].sectors
    ensures Tiles(b, start, end)
  {
    if a != [] { TilesIgnoresFlags(a[1..], b[1..], start + a[0].sectors, end); }
  }

  /** Marking a request as mixed changes no bio's place or effective flags. */
  lemma MixedKeepsContent(r: Req)
    requires ReqOk(r)
    ensures ReqOk(SetMixed(r)) && SetMixed(r).mixed && Content(SetMixed(r)) == Content(r)
  {
    if !r.mixed {
      var m := SetMixed(r);
      TilesIgnoresFlags(r.bios, m.bios, r.pos, End(r));
      assert r.bios[0] in r.bios;
      assert forall i :: 0 <= i < |r.bios| ==> m.bios[i].ff == r.ff by {
        forall i | 0 <= i < |r.bios| ensures m.bios[i].ff == r.ff { assert r.bios[i] in r.bios; }
      }
    }
  }

  lemma OneTile(b: Bio)
    ensures Tiles([b], b.sector, b.sector + b.sectors)
  {
    assert [b][1..] == [];
  }

  lemma BackKeepsContent(r: Req, b: Bio)
    requires ReqOk(r) && End(r) == b.sector
    ensures ReqOk(BackMerged(r, b))
    ensures Content(BackMerged(r, b)) == Content(r) + [Entry(b.id, Piece(b.sector, b.sectors, b.ff))]
    ensures BackMerged(r, b).pos == r.pos && End(BackMerged(r, b)) == b.sector + b.sectors
  {
    MixedKeepsContent(r);
    var r1 := if r.ff != b.ff then SetMixed(r) else r;
    OneTile(b);
    TilesAppend(r1.bios, [b], r.pos, End(r), End(r) + b.sectors);
    assert forall x :: x in r1.bios + [b] ==> x in r1.bios || x == b;
  }

  lemma FrontKeepsContent(r: Req, b: Bio)
    requires ReqOk(r) && r.pos == b.sector + b.sectors
    ensures ReqOk(FrontMerged(r, b))
    ensures Content(FrontMerged(r, b)) == [Entry(b.id, Piece(b.sector, b.sectors, b.ff))] + Content(r)
    ensures FrontMerged(r, b).pos == b.sector && End(FrontMerged(r, b)) == End(r)
  {
    MixedKeepsContent(r);
    var r1 := if r.ff != b.ff then SetMixed(r) else r;
    OneTile(b);
    TilesAppend([b], r1.bios, b.sector, r.pos, End(r));
    assert forall x :: x in [b] + r1.bios ==> x in r1.bios || x == b;
    assert Content(SetMixed(r)) == Content(r);
    forall i | 0 <= i < |r.bios| ensures Content(FrontMerged(r, b))[i + 1] == Content(r)[i] {
      assert Content(r1)[i] == Content(r)[i];
    }
  }

  lemma JoinKeepsContent(r: Req, n: Req)
    requires ReqOk(r) && ReqOk(n) && End(r) == n.pos
    ensures ReqOk(Joined(r, n)) && Content(Joined(r, n)) == Content(r) + Content(n)
    ensures Joined(r, n).pos == r.pos && End(Joined(r, n)) == End(n)
  {
    MixedKeepsContent(r);
    MixedKeepsContent(n);
    var mix := r.mixed || n.mixed || r.ff != n.ff;
    var r1, n1 := if mix then SetMixed(r) else r, if mix then SetMixed(n) else n;
    TilesAppend(r1.bios, n1.bios, r.pos, n.pos, End(n));
    assert forall x :: x in r1.bios + n1.bios ==> x in r1.bios || x in n1.bios;
    forall i | 0 <= i < |n.bios| ensures Content(Joined(r, n))[|r.bios| + i] == Content(n)[i] {
      assert Content(n1)[i] == Content(n)[i];
    }
    forall i | 0 <= i < |r.bios| ensures Content(Joined(r, n))[i] == Content(r)[i] {
      assert Content(r1)[i] == Content(r)[i];
    }
  }

  // ------------------------------------------------------------------ the hash

  lemma {:induction false} WithoutIs(l: seq<nat>, id: nat)
    ensures forall x :: x in Without(l, id) <==> x in l && x != id
    ensures NoDup(l) ==> NoDup(Without(l, id))
  {
    if l != [] {
      WithoutIs(l[1..], id);
      assert forall x :: x in l <==> x == l[0] || x in l[1..];
      var w := Without(l[1..], id);
      assert forall i :: 0 <= i < |w| ==> w[i] in w;
      if NoDup(l) {
        assert NoDup(l[1..]);
        assert l[0] !in l[1..];
      }
    }
  }

  /** Every hashed request is on the chain of its end sector, once, and every mergeable
      request in the elevator is hashed. */
  ghost predicate HashOk(h: nat -> nat, rqs: map<nat, Req>, slots: seq<seq<nat>>) {
    && (forall x :: h(x) < |slots|)
    && (forall b, id :: 0 <= b < |slots| && id in slots[b] ==> id in rqs && h(End(rqs[id])) == b)
    && (forall b :: 0 <= b < |slots| ==> NoDup(slots[b]))
    && (forall id :: id in rqs && rqs[id].ok ==> id in slots[h(End(rqs[id]))])
  }

  lemma DelIs(slots: seq<seq<nat>>, id: nat)
    ensures |HashDel(slots, id)| == |slots|
    ensures forall b, x :: 0 <= b < |slots| ==> (x in HashDel(slots, id)[b] <==> x in slots[b] && x != id)
    ensures forall b :: 0 <= b < |slots| && NoDup(slots[b]) ==> NoDup(HashDel(slots, id)[b])
  {
    forall b | 0 <= b < |slots|
      ensures forall x :: x in HashDel(slots, id)[b] <==> x in slots[b] && x != id
      ensures NoDup(slots[b]) ==> NoDup(HashDel(slots, id)[b])
    {
      WithoutIs(slots[b], id);
    }
  }

  lemma DelHash(h: nat -> nat, rqs: map<nat, Req>, slots: seq<seq<nat>>, id: nat)
    requires HashOk(h, rqs, slots)
    ensures HashOk(h, rqs - {id}, HashDel(slots, id))
  {
    DelIs(slots, id);
  }

  lemma AddHash(h: nat -> nat, rqs: map<nat, Req>, slots: seq<seq<nat>>, id: nat, r: Req)
    requires HashOk(h, rqs, slots) && id !in rqs
    ensures HashOk(h, rqs[id := r], HashAdd(slots, h(End(r)), id))
    ensures !r.ok ==> HashOk(h, rqs[id := r], slots)
  {
    var slot := h(End(r));
    var slots' := HashAdd(slots, slot, id);
    forall b, x | 0 <= b < |slots| ensures x in slots'[b] <==> x in slots[b] || (x == id && b == slot) {
      assert b == slot ==> (x in [id] + slots[slot] <==> x == id || x in slots[slot]);
    }
    assert id !in slots[slot];
    assert forall i :: 0 <= i < |slots[slot]| ==> slots[slot][i] in slots[slot];
  }

  /** Repositioning puts a changed request on the right chain. */
  lemma Reposition(h: nat -> nat, rqs: map<nat, Req>, slots: seq<seq<nat>>, id: nat, r: Req)
    requires HashOk(h, rqs, slots)
    ensures HashOk(h, rqs[id := r], HashAdd(HashDel(slots, id), h(End(r)), id))
  {
    DelHash(h, rqs, slots, id);
    AddHash(h, rqs - {id}, HashDel(slots, id), id, r);
    assert (rqs - {id})[id := r] == rqs[id := r];
  }

  lemma {:induction false} KeptIs(rqs: map<nat, Req>, l: seq<nat>, offset: nat)
    requires forall id :: id in l ==> id in rqs
    ensures forall x :: x in Kept(rqs, l, offset) ==> x in l
    ensures forall x :: x in l && rqs[x].ok ==> x in Kept(rqs, l, offset)
    ensures NoDup(l) ==> NoDup(Kept(rqs, l, offset))
  {
    if l != [] {
      KeptIs(rqs, l[1..], offset);
      assert forall x :: x in l <==> x == l[0] || x in l[1..];
      var k := Kept(rqs, l[1..], offset);
      assert forall i :: 0 <= i < |k| ==> k[i] in k;
      if NoDup(l) {
        assert NoDup(l[1..]);
        assert l[0] !in l[1..];
      }
    }
  }

  /** Walking a chain keeps the hash intact. */
  lemma FindKeepsHash(h: nat -> nat, rqs: map<nat, Req>, slots: seq<seq<nat>>, offset: nat)
    requires HashOk(h, rqs, slots)
    ensures HashOk(h, rqs, slots[h(offset) := Kept(rqs, slots[h(offset)], offset)])
  {
    KeptIs(rqs, slots[h(offset)], offset);
  }

  /** elv_rqhash_find finds a mergeable queued request ending at a sector exactly when
      there is one. */
  lemma FindIsScan(h: nat -> nat, rqs: map<nat, Req>, slots: seq<seq<nat>>, offset: nat)
    requires HashOk(h, rqs, slots)
    ensures var f := Found(rqs, slots[h(offset)], offset);
            && (f.Some? <==> exists id :: id in rqs && rqs[id].ok && End(rqs[id]) == offset)
            && (f.Some? ==> f.value in rqs && rqs[f.value].ok && End(rqs[f.value]) == offset)
  {
  }

  lemma SameKey(h: nat -> nat, rqs: map<nat, Req>, slots: seq<seq<nat>>, id: nat, r: Req)
    requires HashOk(h, rqs, slots) && id in rqs && End(r) == End(rqs[id]) && (r.ok ==> rqs[id].ok)
    ensures HashOk(h, rqs[id := r], slots)
  {
  }

  // ---------------------------------------------------------------- every bio once

  function IdsOf(c: seq<Entry>): set<nat> { set e | e in c :: e.id }

  /** The entries are exactly the bios that `owner` gives to this request. */
  ghost predicate Owned(owner: map<nat, nat>, pieces: map<nat, Piece>, id: nat, c: seq<Entry>) {
    && (forall i :: 0 <= i < |c| ==> c[i].id in owner && owner[c[i].id] == id)
    && (forall i :: 0 <= i < |c| ==> c[i].id in pieces && pieces[c[i].id] == c[i].piece)
    && (forall i, j :: 0 <= i < j < |c| ==> c[i].id != c[j].id)
    && (forall x :: x in owner && owner[x] == id ==> x in IdsOf(c))
  }

  lemma IdsAppend(a: seq<Entry>, b: seq<Entry>)
    ensures IdsOf(a + b) == IdsOf(a) + IdsOf(b)
  {
    assert forall e :: e in a + b <==> e in a || e in b;
  }

  /** A fresh bio given to request `id`. */
  lemma GiveBio(owner: map<nat, nat>, pieces: map<nat, Piece>, id: nat, c: seq<Entry>, e: Entry)
    requires Owned(owner, pieces, id, c) && e.id !in owner
    ensures Owned(owner[e.id := id], pieces[e.id := e.piece], id, c + [e])
  {
    IdsAppend(c, [e]);
    assert e in [e];
  }

  lemma GiveBioFront(owner: map<nat, nat>, pieces: map<nat, Piece>, id: nat, c: seq<Entry>, e: Entry)
    requires Owned(owner, pieces, id, c) && e.id !in owner
    ensures Owned(owner[e.id := id], pieces[e.id := e.piece], id, [e] + c)
  {
    IdsAppend([e], c);
    assert e in [e];
  }

  /** Other requests do not notice. */
  lemma OthersKeep(owner: map<nat, nat>, pieces: map<nat, Piece>, other: nat, c: seq<Entry>, id: nat, e: Entry)
    requires Owned(owner, pieces, other, c) && e.id !in owner && id != other
    ensures Owned(owner[e.id := id], pieces[e.id := e.piece], other, c)
  {
  }

  function Reassigned(owner: map<nat, nat>, id: nat, gone: nat): map<nat, nat> {
    map x | x in owner :: if owner[x] == gone then id else owner[x]
  }

  lemma JoinOwned(owner: map<nat, nat>, pieces: map<nat, Piece>, id: nat, gone: nat, a: seq<Entry>, b: seq<Entry>)
    requires Owned(owner, pieces, id, a) && Owned(owner, pieces, gone, b) && id != gone
    ensures Owned(Reassigned(owner, id, gone), pieces, id, a + b)
  {
    IdsAppend(a, b);
    var o := Reassigned(owner, id, gone);
    forall i | 0 <= i < |a + b| ensures (a + b)[i].id in o && o[(a + b)[i].id] == id {
      assert i < |a| ==> owner[a[i].id] == id;
      assert i >= |a| ==> owner[b[i - |a|].id] == gone;
    }
    forall i, j | 0 <= i < j < |a + b| ensures (a + b)[i].id != (a + b)[j].id {
      assert i < |a| <= j ==> owner[a[i].id] != owner[b[j - |a|].id];
    }
  }

  lemma JoinOthers(owner: map<nat, nat>, pieces: map<nat, Piece>, id: nat, gone: nat, other: nat, c: seq<Entry>)
    requires Owned(owner, pieces, other, c) && other != id && other != gone
    ensures Owned(Reassigned(owner, id, gone), pieces, other, c)
  {
  }

  /** Every request holds what it owns. */
  ghost predicate Holds(owner: map<nat, nat>, pieces: map<nat, Piece>, cs: map<nat, seq<Entry>>) {
    forall id :: id in cs ==> Owned(owner, pieces, id, cs[id])
  }

  /** Every submitted bio is owned by one of the requests. */
  ghost predicate Placed(owner: map<nat, nat>, pieces: map<nat, Piece>, cs: map<nat, seq<Entry>>) {
    owner.Keys == pieces.Keys && forall x :: x in owner ==> owner[x] in cs
  }

  lemma FirstBio(owner: map<nat, nat>, pieces: map<nat, Piece>, cs: map<nat, seq<Entry>>, id: nat, e: Entry)
    requires Placed(owner, pieces, cs) && id !in cs && e.id !in owner
    ensures Owned(owner[e.id := id], pieces[e.id := e.piece], id, [e])
  {
    assert Owned(owner, pieces, id, []);
    GiveBio(owner, pieces, id, [], e);
    assert [] + [e] == [e];
  }

  lemma HoldsNew(owner: map<nat, nat>, pieces: map<nat, Piece>, cs: map<nat, seq<Entry>>, id: nat, e: Entry)
    requires Holds(owner, pieces, cs) && Placed(owner, pieces, cs) && id !in cs && e.id !in owner
    ensures Holds(owner[e.id := id], pieces[e.id := e.piece], cs[id := [e]])
    ensures Placed(owner[e.id := id], pieces[e.id := e.piece], cs[id := [e]])
  {
    FirstBio(owner, pieces, cs, id, e);
    forall x | x in cs ensures Owned(owner[e.id := id], pieces[e.id := e.piece], x, cs[x]) {
      OthersKeep(owner, pieces, x, cs[x], id, e);
    }
  }

  lemma HoldsGive(owner: map<nat, nat>, pieces: map<nat, Piece>, cs: map<nat, seq<Entry>>, id: nat, e: Entry,
                  front: bool)
    requires Holds(owner, pieces, cs) && Placed(owner, pieces, cs) && id in cs && e.id !in owner
    ensures Holds(owner[e.id := id], pieces[e.id := e.piece], cs[id := if front then [e] + cs[id] else cs[id] + [e]])
    ensures Placed(owner[e.id := id], pieces[e.id := e.piece], cs[id := if front then [e] + cs[id] else cs[id] + [e]])
  {
    if front { GiveBioFront(owner, pieces, id, cs[id], e); } else { GiveBio(owner, pieces, id, cs[id], e); }
    forall x | x in cs && x != id ensures Owned(owner[e.id := id], pieces[e.id := e.piece], x, cs[x]) {
      OthersKeep(owner, pieces, x, cs[x], id, e);
    }
  }

  lemma HoldsJoin(owner: map<nat, nat>, pieces: map<nat, Piece>, cs: map<nat, seq<Entry>>, id: nat, gone: nat)
    requires Holds(owner, pieces, cs) && id in cs && gone in cs && id != gone
    ensures Holds(Reassigned(owner, id, gone), pieces, cs[id := cs[id] + cs[gone]] - {gone})
  {
    var o := Reassigned(owner, id, gone);
    JoinOwned(owner, pieces, id, gone, cs[id], cs[gone]);
    forall x | x in cs && x != id && x != gone ensures Owned(o, pieces, x, cs[x]) {
      JoinOthers(owner, pieces, id, gone, x, cs[x]);
    }
  }

  lemma PlacedJoin(owner: map<nat, nat>, pieces: map<nat, Piece>, cs: map<nat, seq<Entry>>, id: nat, gone: nat)
    requires Placed(owner, pieces, cs) && id in cs && gone in cs && id != gone
    ensures Placed(Reassigned(owner, id, gone), pieces, cs[id := cs[id] + cs[gone]] - {gone})
  {
  }

  // ------------------------------------------------------------- the invariant

  /** What every request stands for, in the elevator or on the dispatch queue. */
  function Contents(rqs: map<nat, Req>, out: map<nat, Req>): map<nat, seq<Entry>> {
    map id | id in rqs.Keys + out.Keys :: Content(if id in rqs then rqs[id] else out[id])
  }

  lemma ContentsSet(rqs: map<nat, Req>, out: map<nat, Req>, id: nat, r: Req)
    requires id !in out
    ensures Contents(rqs[id := r], out) == Contents(rqs, out)[id := Content(r)]
    ensures id !in rqs ==> Contents(rqs, out[id := r]) == Contents(rqs, out)[id := Content(r)]
  {
  }

  lemma ContentsDel(rqs: map<nat, Req>, out: map<nat, Req>, id: nat)
    requires id in rqs && id !in out
    ensures Contents(rqs - {id}, out) == Contents(rqs, out) - {id}
    ensures Contents(rqs - {id}, out[id := rqs[id]]) == Contents(rqs, out)
  {
  }

  ghost predicate Shaped(rqs: map<nat, Req>) { forall id :: id in rqs ==> ReqOk(rqs[id]) }

  ghost predicate Accounted(q: Queue) {
    && Holds(q.owner, q.pieces, Contents(q.rqs, q.out)) && Placed(q.owner, q.pieces, Contents(q.rqs, q.out))
    && q.rqs.Keys !! q.out.Keys && Shaped(q.rqs) && Shaped(q.out)
  }

  ghost predicate Valid(h: nat -> nat, q: Queue) {
    Accounted(q) && HashOk(h, q.rqs, q.slots) && (q.last.Some? ==> q.last.value in q.rqs)
  }

  // ---------------------------------------------------------- each step keeps it

  /** What a new request is added to. */
  lemma NewParts(h: nat -> nat, q: Queue, b: Bio, e: Env)
    requires Fits(h, q)
    ensures var q', r := NewRequest(h, q, b, e), Req([b], b.sector, b.sectors, e.newOk, e.newFf, false);
            && q'.rqs == (if e.barrier then q.rqs else q.rqs[e.newId := r])
            && q'.out == (if e.barrier then q.out[e.newId := r] else q.out)
            && q'.owner == q.owner[b.id := e.newId]
            && q'.pieces == q.pieces[b.id := Piece(b.sector, b.sectors, e.newFf)]
  {
  }

  lemma NewContents(h: nat -> nat, q: Queue, b: Bio, e: Env)
    requires Fits(h, q) && EnvOk(q, b, e) && q.rqs.Keys !! q.out.Keys && Shaped(q.rqs) && Shaped(q.out)
    ensures var q' := NewRequest(h, q, b, e);
            && Contents(q'.rqs, q'.out)
               == Contents(q.rqs, q.out)[e.newId := [Entry(b.id, Piece(b.sector, b.sectors, e.newFf))]]
            && q'.rqs.Keys !! q'.out.Keys && Shaped(q'.rqs) && Shaped(q'.out)
            && q'.owner == q.owner[b.id := e.newId]
            && q'.pieces == q.pieces[b.id := Piece(b.sector, b.sectors, e.newFf)]
  {
    var r := Req([b], b.sector, b.sectors, e.newOk, e.newFf, false);
    OneTile(b);
    assert Content(r) == [Entry(b.id, Piece(b.sector, b.sectors, e.newFf))];
    NewParts(h, q, b, e);
    ContentsSet(q.rqs, q.out, e.newId, r);
  }

  lemma NewAccounted(h: nat -> nat, q: Queue, b: Bio, e: Env)
    requires Accounted(q) && Fits(h, q) && EnvOk(q, b, e)
    ensures Accounted(NewRequest(h, q, b, e))
  {
    NewContents(h, q, b, e);
    HoldsNew(q.owner, q.pieces, Contents(q.rqs, q.out), e.newId, Entry(b.id, Piece(b.sector, b.sectors, e.newFf)));
  }

  lemma NewHash(h: nat -> nat, q: Queue, b: Bio, e: Env)
    requires HashOk(h, q.rqs, q.slots) && Fits(h, q) && e.newId !in q.rqs
    ensures var q' := NewRequest(h, q, b, e); HashOk(h, q'.rqs, q'.slots) && (q'.last.Some? ==> q'.last.value in q'.rqs)
  {
    if !e.barrier { AddHash(h, q.rqs, q.slots, e.newId, Req([b], b.sector, b.sectors, e.newOk, e.newFf, false)); }
  }

  lemma TookContents(q: Queue, id: nat, r: Req, b: Bio)
    requires id in q.rqs && id !in q.out && Shaped(q.rqs) && ReqOk(r)
    ensures var q' := Took(q, id, r, b);
            && Contents(q'.rqs, q'.out) == Contents(q.rqs, q.out)[id := Content(r)]
            && Contents(q.rqs, q.out)[id] == Content(q.rqs[id])
            && Shaped(q'.rqs) && q'.rqs.Keys == q.rqs.Keys
  {
    ContentsSet(q.rqs, q.out, id, r);
  }

  lemma TookAccounted(q: Queue, id: nat, r: Req, b: Bio, front: bool)
    requires Accounted(q) && id in q.rqs && b.id !in q.owner && ReqOk(r)
    requires var e := Entry(b.id, Piece(b.sector, b.sectors, b.ff));
             Content(r) == if front then [e] + Content(q.rqs[id]) else Content(q.rqs[id]) + [e]
    ensures Accounted(Took(q, id, r, b))
  {
    TookContents(q, id, r, b);
    HoldsGive(q.owner, q.pieces, Contents(q.rqs, q.out), id, Entry(b.id, Piece(b.sector, b.sectors, b.ff)), front);
  }

  lemma JoinAccounted(h: nat -> nat, q: Queue, id: nat, gone: nat)
    requires Accounted(q) && forall x :: h(x) < |q.slots|
    requires id in q.rqs && gone in q.rqs && id != gone && End(q.rqs[id]) == q.rqs[gone].pos
    ensures Accounted(Join(h, q, id, gone))
  {
    var r := Joined(q.rqs[id], q.rqs[gone]);
    JoinKeepsContent(q.rqs[id], q.rqs[gone]);
    ContentsSet(q.rqs, q.out, id, r);
    ContentsDel(q.rqs[id := r], q.out, gone);
    HoldsJoin(q.owner, q.pieces, Contents(q.rqs, q.out), id, gone);
    PlacedJoin(q.owner, q.pieces, Contents(q.rqs, q.out), id, gone);
    assert Join(h, q, id, gone).owner == Reassigned(q.owner, id, gone);
  }

  lemma RefusedContents(rqs: map<nat, Req>, out: map<nat, Req>, id: nat)
    requires id in rqs && id !in out && Shaped(rqs)
    ensures var rqs' := rqs[id := rqs[id].(ok := false)]; Contents(rqs', out) == Contents(rqs, out) && Shaped(rqs')
  {
    assert Content(rqs[id].(ok := false)) == Content(rqs[id]);
    ContentsSet(rqs, out, id, rqs[id].(ok := false));
  }

  lemma RefusedValid(h: nat -> nat, q: Queue, id: nat)
    requires Valid(h, q) && id in q.rqs
    ensures Valid(h, Refused(q, id))
  {
    SameKey(h, q.rqs, q.slots, id, q.rqs[id].(ok := false));
    RefusedContents(q.rqs, q.out, id);
  }

  lemma JoinHash(h: nat -> nat, rqs: map<nat, Req>, slots: seq<seq<nat>>, id: nat, gone: nat, r: Req)
    requires HashOk(h, rqs, slots)
    ensures HashOk(h, rqs[id := r] - {gone}, HashDel(HashAdd(HashDel(slots, id), h(End(r)), id), gone))
  {
    Reposition(h, rqs, slots, id, r);
    DelHash(h, rqs[id := r], HashAdd(HashDel(slots, id), h(End(r)), id), gone);
  }

  lemma BackHash(h: nat -> nat, q: Queue, id: nat, b: Bio, e: Env)
    requires HashOk(h, q.rqs, q.slots) && id in q.rqs && e.neighbour != Some(id)
    requires e.neighbour.Some? ==> e.neighbour.value in q.rqs
    ensures var q' := TakeBack(h, q, id, b, e); HashOk(h, q'.rqs, q'.slots) && q'.last.Some? && q'.last.value in q'.rqs
  {
    var r := BackMerged(q.rqs[id], b);
    var q1 := Took(q, id, r, b);
    if e.neighbour.Some? && Joins(q1, id, e.neighbour.value, e) {
      var j := Joined(r, q1.rqs[e.neighbour.value]);
      JoinHash(h, q.rqs, q.slots, id, e.neighbour.value, j);
      assert q1.rqs[id := j] == q.rqs[id := j];
    } else {
      Reposition(h, q.rqs, q.slots, id, r);
    }
  }

  lemma BackAccounted(h: nat -> nat, q: Queue, id: nat, b: Bio, e: Env)
    requires Accounted(q) && Fits(h, q) && EnvOk(q, b, e) && id in q.rqs && e.neighbour != Some(id)
    requires End(q.rqs[id]) == b.sector
    ensures Accounted(TakeBack(h, q, id, b, e))
  {
    var r := BackMerged(q.rqs[id], b);
    BackKeepsContent(q.rqs[id], b);
    TookAccounted(q, id, r, b, false);
    var q1 := Took(q, id, r, b);
    if e.neighbour.Some? && Joins(q1, id, e.neighbour.value, e) { JoinAccounted(h, q1, id, e.neighbour.value); }
  }

  lemma FrontHash(h: nat -> nat, q: Queue, id: nat, b: Bio, e: Env)
    requires HashOk(h, q.rqs, q.slots) && id in q.rqs && e.neighbour != Some(id)
    requires e.neighbour.Some? ==> e.neighbour.value in q.rqs
    requires End(FrontMerged(q.rqs[id], b)) == End(q.rqs[id])
    ensures var q' := TakeFront(h, q, id, b, e); HashOk(h, q'.rqs, q'.slots) && q'.last.Some? && q'.last.value in q'.rqs
  {
    var r := FrontMerged(q.rqs[id], b);
    SameKey(h, q.rqs, q.slots, id, r);
    var q1 := Took(q, id, r, b);
    if e.neighbour.Some? && Joins(q1, e.neighbour.value, id, e) {
      JoinHash(h, q1.rqs, q.slots, e.neighbour.value, id, Joined(q1.rqs[e.neighbour.value], r));
    }
  }

  lemma FrontAccounted(h: nat -> nat, q: Queue, id: nat, b: Bio, e: Env)
    requires Accounted(q) && Fits(h, q) && EnvOk(q, b, e) && id in q.rqs && e.neighbour != Some(id)
    requires q.rqs[id].pos == b.sector + b.sectors
    ensures Accounted(TakeFront(h, q, id, b, e)) && End(FrontMerged(q.rqs[id], b)) == End(q.rqs[id])
  {
    var r := FrontMerged(q.rqs[id], b);
    FrontKeepsContent(q.rqs[id], b);
    TookAccounted(q, id, r, b, true);
    var q1 := Took(q, id, r, b);
    if e.neighbour.Some? && Joins(q1, e.neighbour.value, id, e) { JoinAccounted(h, q1, e.neighbour.value, id); }
  }

  lemma DispatchValid(h: nat -> nat, q: Queue, id: nat)
    requires Valid(h, q) && id in q.rqs
    ensures Valid(h, Dispatched(q, id))
  {
    DelHash(h, q.rqs, q.slots, id);
    ContentsDel(q.rqs, q.out, id);
  }

  /** elv_merge proposes a merge only with a mergeable request in the elevator that is
      adjacent to the bio, and spoils nothing. */
  lemma MergeIsAdjacent(h: nat -> nat, q: Queue, b: Bio, e: Env)
    requires Valid(h, q) && Fits(h, q) && EnvOk(q, b, e)
    ensures var (q', p) := ElvMerge(h, q, b, e);
            && q' == q.(slots := q'.slots) && HashOk(h, q.rqs, q'.slots)
            && (p.Back? ==> p.id in q.rqs && q.rqs[p.id].ok && End(q.rqs[p.id]) == b.sector)
            && (p.Front? ==> p.id in q.rqs && q.rqs[p.id].ok && q.rqs[p.id].pos == b.sector + b.sectors)
  {
    FindIsScan(h, q.rqs, q.slots, b.sector);
    FindKeepsHash(h, q.rqs, q.slots, b.sector);
  }

  lemma PlaceValid(h: nat -> nat, q: Queue, p: Place, b: Bio, e: Env)
    requires Valid(h, q) && Fits(h, q) && EnvOk(q, b, e)
    requires (p != NoMerge ==> p.id in q.rqs && e.neighbour != Some(p.id))
    requires p.Back? ==> End(q.rqs[p.id]) == b.sector
    requires p.Front? ==> q.rqs[p.id].pos == b.sector + b.sectors
    ensures Valid(h, PlaceBio(h, q, p, b, e))
  {
    if p == NoMerge {
      NewAccounted(h, q, b, e);
      NewHash(h, q, b, e);
    } else if !e.fits {
      RefusedThenNew(h, q, p.id, b, e);
    } else if p.Back? {
      BackAccounted(h, q, p.id, b, e);
      BackHash(h, q, p.id, b, e);
    } else {
      FrontAccounted(h, q, p.id, b, e);
      FrontHash(h, q, p.id, b, e);
    }
  }

  lemma RefusedThenNew(h: nat -> nat, q: Queue, id: nat, b: Bio, e: Env)
    requires Valid(h, q) && Fits(h, q) && EnvOk(q, b, e) && id in q.rqs
    ensures Fits(h, Refused(q, id)) && Valid(h, NewRequest(h, Refused(q, id), b, e))
  {
    RefusedValid(h, q, id);
    var e1 := e.(front := None);
    NewAccounted(h, Refused(q, id), b, e1);
    NewHash(h, Refused(q, id), b, e1);
  }

  // ------------------------------------------------------------------ every run

  datatype Op = Submit(b: Bio, e: Env) | Dispatch(id: nat) | Unmergeable(id: nat)

  /** The neighbour of the merge target is another request. */
  ghost predicate Enabled(h: nat -> nat, q: Queue, op: Op)
    requires Fits(h, q)
  {
    match op
    case Submit(b, e) =>
      var p := ElvMerge(h, q, b, e).1;
      EnvOk(q, b, e) && (p != NoMerge ==> e.neighbour != Some(p.id))
    case Dispatch(id) => id in q.rqs
    case Unmergeable(id) => id in q.rqs
  }

  lemma ValidFits(h: nat -> nat, q: Queue)
    requires HashOk(h, q.rqs, q.slots) && (q.last.Some? ==> q.last.value in q.rqs)
    ensures Fits(h, q)
  {
  }

  /** __make_request as a whole. */
  ghost function MakeRequest(h: nat -> nat, q: Queue, b: Bio, e: Env): Queue
    requires Valid(h, q) && Fits(h, q) && Enabled(h, q, Submit(b, e))
  {
    if e.barrier then NewRequest(h, q, b, e)
    else
      MergeIsAdjacent(h, q, b, e);
      var (q1, p) := ElvMerge(h, q, b, e);
      ValidFits(h, q1);
      PlaceBio(h, q1, p, b, e)
  }

  ghost function Apply(h: nat -> nat, q: Queue, op: Op): Queue
    requires Valid(h, q) && Fits(h, q) && Enabled(h, q, op)
  {
    match op
    case Submit(b, e) => MakeRequest(h, q, b, e)
    case Dispatch(id) => Dispatched(q, id)
    case Unmergeable(id) => Refused(q, id)
  }

  /** What a bio came with: its place, and its own flags or those of the request that was
      made for it. */
  predicate Carries(op: Op, p: Piece)
    requires op.Submit?
  {
    p.sector == op.b.sector && p.sectors == op.b.sectors && (p.ff == op.b.ff || p.ff == op.e.newFf)
  }

  /** A submitted bio is recorded with what it came with, and nothing else changes. */
  ghost predicate Records(q: Queue, op: Op, q': Queue) {
    if op.Submit? then
      && op.b.id !in q.pieces && op.b.id in q'.pieces && Carries(op, q'.pieces[op.b.id])
      && q'.pieces == q.pieces[op.b.id := q'.pieces[op.b.id]]
    else q'.pieces == q.pieces
  }

  lemma PlaceRecords(h: nat -> nat, q: Queue, p: Place, b: Bio, e: Env)
    requires Fits(h, q) && EnvOk(q, b, e) && (p != NoMerge ==> p.id in q.rqs && e.neighbour != Some(p.id))
    requires q.owner.Keys == q.pieces.Keys
    ensures Records(q, Submit(b, e), PlaceBio(h, q, p, b, e))
  {
  }

  lemma StepRecords(h: nat -> nat, q: Queue, op: Op)
    requires Valid(h, q) && Fits(h, q) && Enabled(h, q, op)
    ensures Records(q, op, Apply(h, q, op))
  {
    if op.Submit? && !op.e.barrier {
      MergeIsAdjacent(h, q, op.b, op.e);
      var (q1, p) := ElvMerge(h, q, op.b, op.e);
      ValidFits(h, q1);
      PlaceRecords(h, q1, p, op.b, op.e);
    }
  }

  lemma StepValid(h: nat -> nat, q: Queue, op: Op)
    requires Valid(h, q) && Fits(h, q) && Enabled(h, q, op)
    ensures Valid(h, Apply(h, q, op)) && Records(q, op, Apply(h, q, op))
  {
    StepRecords(h, q, op);
    match op
    case Submit(b, e) =>
      if e.barrier {
        NewAccounted(h, q, b, e);
        NewHash(h, q, b, e);
      } else {
        MergeIsAdjacent(h, q, b, e);
        var (q1, p) := ElvMerge(h, q, b, e);
        ValidFits(h, q1);
        PlaceValid(h, q1, p, b, e);
      }
    case Dispatch(id) => DispatchValid(h, q, id);
    case Unmergeable(id) => RefusedValid(h, q, id);
  }

  ghost predicate Reaches(h: nat -> nat, q: Queue, run: seq<Op>, q': Queue)
    requires Valid(h, q)
    decreases |run|
  {
    if run == [] then q' == q
    else
      ValidFits(h, q);
      Enabled(h, q, run[0]) &&
      (StepValid(h, q, run[0]);
       Reaches(h, Apply(h, q, run[0]), run[1..], q'))
  }

  lemma {:induction false} RunValid(h: nat -> nat, q: Queue, run: seq<Op>, q': Queue)
    requires Valid(h, q) && Reaches(h, q, run, q')
    ensures Valid(h, q')
    decreases |run|
  {
    if run != [] {
      ValidFits(h, q);
      StepValid(h, q, run[0]);
      RunValid(h, Apply(h, q, run[0]), run[1..], q');
    }
  }

  lemma InitValid(h: nat -> nat, entries: nat)
    requires forall x :: h(x) < entries
    ensures Valid(h, Init(entries))
  {
  }

  /** A state reached from an empty queue with a hash of that many chains. */
  ghost predicate Reachable(h: nat -> nat, entries: nat, run: seq<Op>, q: Queue)
    requires forall y :: h(y) < entries
  {
    InitValid(h, entries);
    Reaches(h, Init(entries), run, q)
  }

  lemma ReachableValid(h: nat -> nat, entries: nat, run: seq<Op>, q: Queue)
    requires (forall y :: h(y) < entries) && Reachable(h, entries, run, q)
    ensures Valid(h, q)
  {
    InitValid(h, entries);
    RunValid(h, Init(entries), run, q);
  }

  /** The record holds a bio for each submission of the run, as it came, and keeps what
      was there before. */
  ghost predicate Holding(q: Queue, run: seq<Op>, q': Queue) {
    && (forall x :: x in q.pieces ==> x in q'.pieces && q'.pieces[x] == q.pieces[x])
    && (forall i :: 0 <= i < |run| && run[i].Submit? ==>
          run[i].b.id in q'.pieces && Carries(run[i], q'.pieces[run[i].b.id]))
    && (forall x :: x in q'.pieces ==> x in q.pieces || Submitted(run, x))
  }

  ghost predicate Submitted(run: seq<Op>, x: nat) {
    exists i :: 0 <= i < |run| && run[i].Submit? && run[i].b.id == x
  }

  lemma HoldingThen(q: Queue, run: seq<Op>, q1: Queue, q': Queue)
    requires run != [] && Records(q, run[0], q1) && Holding(q1, run[1..], q')
    ensures Holding(q, run, q')
  {
    forall i | 0 <= i < |run| && run[i].Submit?
      ensures run[i].b.id in q'.pieces && Carries(run[i], q'.pieces[run[i].b.id])
    {
      assert i > 0 ==> run[i] == run[1..][i - 1];
    }
    forall x | x in q'.pieces && x !in q.pieces ensures Submitted(run, x) {
      if x !in q1.pieces {
        var i :| 0 <= i < |run[1..]| && run[1..][i].Submit? && run[1..][i].b.id == x;
        assert run[i + 1] == run[1..][i];
      }
    }
  }

  lemma {:induction false} RunRecords(h: nat -> nat, q: Queue, run: seq<Op>, q': Queue)
    requires Valid(h, q) && Reaches(h, q, run, q')
    ensures Holding(q, run, q')
    decreases |run|
  {
    if run != [] {
      ValidFits(h, q);
      StepValid(h, q, run[0]);
      RunRecords(h, Apply(h, q, run[0]), run[1..], q');
      HoldingThen(q, run, Apply(h, q, run[0]), q');
    }
  }

  /** The entry is at index i of what request `id` stands for. */
  ghost predicate At(cs: map<nat, seq<Entry>>, id: nat, i: nat, e: Entry) {
    id in cs && i < |cs[id]| && cs[id][i] == e
  }

  ghost predicate SomewhereAs(cs: map<nat, seq<Entry>>, e: Entry) { exists id, i :: At(cs, id, i, e) }

  ghost predicate AtMostOnce(cs: map<nat, seq<Entry>>, x: nat) {
    forall id, i, e, id', i', e' :: At(cs, id, i, e) && At(cs, id', i', e') && e.id == x == e'.id ==>
      id == id' && i == i'
  }

  /** Bio `x` is in one request, at one place, as this piece. */
  ghost predicate InOnePlace(cs: map<nat, seq<Entry>>, x: nat, p: Piece) {
    SomewhereAs(cs, Entry(x, p)) && AtMostOnce(cs, x)
  }

  lemma EntryIsOwned(owner: map<nat, nat>, pieces: map<nat, Piece>, cs: map<nat, seq<Entry>>, id: nat, i: nat, e: Entry)
    requires Holds(owner, pieces, cs) && At(cs, id, i, e)
    ensures e.id in owner && owner[e.id] == id && e.id in pieces && pieces[e.id] == e.piece
  {
  }

  lemma RecordedOnce(owner: map<nat, nat>, pieces: map<nat, Piece>, cs: map<nat, seq<Entry>>, x: nat)
    requires Holds(owner, pieces, cs) && Placed(owner, pieces, cs) && x in pieces
    ensures InOnePlace(cs, x, pieces[x])
  {
    var id := owner[x];
    assert x in IdsOf(cs[id]);
    var e: Entry :| e in cs[id] && e.id == x;
    var i: nat :| i < |cs[id]| && cs[id][i] == e;
    EntryIsOwned(owner, pieces, cs, id, i, e);
    assert At(cs, id, i, Entry(x, pieces[x]));
    forall id1, i1, e1, id2, i2, e2 | At(cs, id1, i1, e1) && At(cs, id2, i2, e2) && e1.id == x == e2.id
      ensures id1 == id2 && i1 == i2
    {
      EntryIsOwned(owner, pieces, cs, id1, i1, e1);
      EntryIsOwned(owner, pieces, cs, id2, i2, e2);
    }
  }

  /** Each submission of the run is in one place, and nothing else is anywhere. */
  ghost predicate HoldsRun(cs: map<nat, seq<Entry>>, run: seq<Op>) {
    && (forall k :: 0 <= k < |run| && run[k].Submit? ==>
          exists p :: Carries(run[k], p) && InOnePlace(cs, run[k].b.id, p))
    && (forall id, i, e :: At(cs, id, i, e) ==> Submitted(run, e.id))
  }

  lemma RecordedHoldsRun(q: Queue, run: seq<Op>, q': Queue, cs: map<nat, seq<Entry>>)
    requires q.pieces == map[] && Holding(q, run, q')
    requires Holds(q'.owner, q'.pieces, cs) && Placed(q'.owner, q'.pieces, cs)
    ensures HoldsRun(cs, run)
  {
    forall k | 0 <= k < |run| && run[k].Submit?
      ensures exists p :: Carries(run[k], p) && InOnePlace(cs, run[k].b.id, p)
    {
      RecordedOnce(q'.owner, q'.pieces, cs, run[k].b.id);
      assert Carries(run[k], q'.pieces[run[k].b.id]);
    }
    forall id, i, e | At(cs, id, i, e) ensures Submitted(run, e.id) {
      EntryIsOwned(q'.owner, q'.pieces, cs, id, i, e);
    }
  }

  /** After any run every bio submitted in it is in exactly one request, at one place,
      with the sectors and failfast flags it came with, and nothing else is in any
      request; every request's bios tile its sectors; the hash answers like a scan. */
  lemma MergingPreservesMeaning(h: nat -> nat, entries: nat, run: seq<Op>, q: Queue)
    requires (forall y :: h(y) < entries) && Reachable(h, entries, run, q)
    ensures HoldsRun(Contents(q.rqs, q.out), run)
    ensures Shaped(q.rqs) && Shaped(q.out) && HashOk(h, q.rqs, q.slots)
  {
    ReachableValid(h, entries, run, q);
    RunRecords(h, Init(entries), run, q);
    RecordedHoldsRun(Init(entries), run, q, Contents(q.rqs, q.out));
  }
}
