/** Request merging: __make_request in block/blk-core.c, the merge functions of
    block/blk-merge.c and the merge hash of block/elevator.c.  Sizes are in sectors. */
module MergeModel {
  import opened Wrappers

  /** A bio: its place on the disk and the failfast flags of bi_rw. */
  datatype Bio = Bio(id: nat, sector: nat, sectors: nat, ff: set<nat>)

  /** A request: its chain of bios, __sector, __data_len, rq_mergeable, the failfast
      flags of cmd_flags and REQ_MIXED_MERGE. */
  datatype Req = Req(bios: seq<Bio>, pos: nat, sectors: nat, ok: bool, ff: set<nat>, mixed: bool)

  /** What is known of a submitted bio: its place, and the failfast flags that hold for
      it. */
  datatype Piece = Piece(sector: nat, sectors: nat, ff: set<nat>)

  /** The requests in the elevator, those on the dispatch queue, the hash chains and
      last_merge; `owner` and `pieces` record every submitted bio. */
  datatype Queue = Queue(rqs: map<nat, Req>, out: map<nat, Req>, slots: seq<seq<nat>>, last: Option<nat>,
                         owner: map<nat, nat>, pieces: map<nat, Piece>)

  function Init(entries: nat): Queue { Queue(map[], map[], seq(entries, _ => []), None, map[], map[]) }

  /** rq_hash_key. */
  function End(r: Req): nat { r.pos + r.sectors }

  // ----------------------------------------------------------- rewriting requests

  /** blk_rq_set_mixed_merge. */
  function SetMixed(r: Req): Req {
    if r.mixed then r
    else r.(bios := seq(|r.bios|, i requires 0 <= i < |r.bios| => r.bios[i].(ff := r.bios[i].ff + r.ff)), mixed := true)
  }

  /** The back merge of __make_request. */
  function BackMerged(r: Req, b: Bio): Req {
    var r1 := if r.ff != b.ff then SetMixed(r) else r;
    r1.(bios := r1.bios + [b], sectors := r.sectors + b.sectors)
  }

  /** The front merge of __make_request. */
  function FrontMerged(r: Req, b: Bio): Req {
    var r1 := if r.ff != b.ff then SetMixed(r).(ff := b.ff) else r;
    r1.(bios := [b] + r1.bios, pos := b.sector, sectors := r.sectors + b.sectors)
  }

  /** attempt_merge, once it has been allowed. */
  function Joined(r: Req, n: Req): Req {
    var mix := r.mixed || n.mixed || r.ff != n.ff;
    var r1, n1 := if mix then SetMixed(r) else r, if mix then SetMixed(n) else n;
    r1.(bios := r1.bios + n1.bios, sectors := r.sectors + n.sectors)
  }

  // ---------------------------------------------------------------- the hash

  function Without(l: seq<nat>, id: nat): seq<nat> {
    if l == [] then [] else if l[0] == id then Without(l[1..], id) else [l[0]] + Without(l[1..], id)
  }

  /** elv_rqhash_del: the entry is unlinked from whatever chain it is on. */
  function HashDel(slots: seq<seq<nat>>, id: nat): seq<seq<nat>> {
    seq(|slots|, b requires 0 <= b < |slots| => Without(slots[b], id))
  }

  /** elv_rqhash_add; `slot` is the hash of the request's end. */
  function HashAdd(slots: seq<seq<nat>>, slot: nat, id: nat): seq<seq<nat>>
    requires slot < |slots|
  {
    slots[slot := [id] + slots[slot]]
  }

  /** What is left of the chain walked by elv_rqhash_find: entries that have become
      unmergeable are dropped on the way. */
  function Kept(rqs: map<nat, Req>, l: seq<nat>, offset: nat): seq<nat>
    requires forall id :: id in l ==> id in rqs
  {
    if l == [] then []
    else if !rqs[l[0]].ok then Kept(rqs, l[1..], offset)
    else if End(rqs[l[0]]) == offset then l
    else [l[0]] + Kept(rqs, l[1..], offset)
  }

  /** The request elv_rqhash_find returns. */
  function Found(rqs: map<nat, Req>, l: seq<nat>, offset: nat): (r: Option<nat>)
    requires forall id :: id in l ==> id in rqs
    ensures r.Some? ==> r.value in l && rqs[r.value].ok && End(rqs[r.value]) == offset
    ensures r.None? ==> forall id :: id in l ==> !(rqs[id].ok && End(rqs[id]) == offset)
  {
    if l == [] then None
    else if rqs[l[0]].ok && End(rqs[l[0]]) == offset then Some(l[0])
    else Found(rqs, l[1..], offset)
  }

  // -------------------------------------------------------------- __make_request

  /** Everything else the code asks: the identity of a new request, whether the bio is
      a barrier, the queue's nomerges flag, the requests for which the remaining tests of
      elv_rq_merge_ok pass, what the scheduler's own merge function finds, whether the
      limits admit the bio, the neighbour request, whether the remaining tests of
      attempt_merge pass, and flags of a new request. */
  datatype Env = Env(newId: nat, barrier: bool, nomerges: bool, allow: set<nat>, front: Option<nat>, fits: bool,
                     neighbour: Option<nat>, joins: bool, newOk: bool, newFf: set<nat>)

  datatype Place = NoMerge | Back(id: nat) | Front(id: nat)

  /** elv_try_merge. */
  function TryMerge(q: Queue, id: nat, b: Bio, e: Env): Place
    requires id in q.rqs
  {
    var r := q.rqs[id];
    if !(r.ok && id in e.allow) then NoMerge
    else if End(r) == b.sector then Back(id)
    else if r.pos == b.sector + b.sectors then Front(id)
    else NoMerge
  }

  /** The hash function of the elevator, and a queue with chains for it. */
  ghost predicate Fits(h: nat -> nat, q: Queue) {
    && (forall x :: h(x) < |q.slots|)
    && (forall b, id :: 0 <= b < |q.slots| && id in q.slots[b] ==> id in q.rqs)
    && (q.last.Some? ==> q.last.value in q.rqs)
  }

  /** elv_merge: last_merge first, then the hash, then the scheduler. */
  function ElvMerge(h: nat -> nat, q: Queue, b: Bio, e: Env): (r: (Queue, Place))
    requires Fits(h, q)
  {
    var hit := if q.last.Some? then TryMerge(q, q.last.value, b, e) else NoMerge;
    if hit != NoMerge then (q, hit)
    else if e.nomerges then (q, NoMerge)
    else
      var slot := h(b.sector);
      var found := Found(q.rqs, q.slots[slot], b.sector);
      var q1 := q.(slots := q.slots[slot := Kept(q.rqs, q.slots[slot], b.sector)]);
      if found.Some? && q.rqs[found.value].ok && found.value in e.allow then (q1, Back(found.value))
      else if e.front.Some? then (q1, Front(e.front.value))
      else (q1, NoMerge)
  }

  /** A new request for the bio. */
  function NewRequest(h: nat -> nat, q: Queue, b: Bio, e: Env): Queue
    requires Fits(h, q)
  {
    var r := Req([b], b.sector, b.sectors, e.newOk, e.newFf, false);
    var q1 := q.(owner := q.owner[b.id := e.newId], pieces := q.pieces[b.id := Piece(b.sector, b.sectors, e.newFf)]);
    if e.barrier then q1.(out := q.out[e.newId := r])
    else
      var q2 := q1.(rqs := q.rqs[e.newId := r]);
      if r.ok then
        q2.(slots := HashAdd(q.slots, h(End(r)), e.newId), last := if q.last.None? then Some(e.newId) else q.last)
      else q2
  }

  /** ll_new_hw_segment and the like refuse: REQ_NOMERGE is set. */
  function Refused(q: Queue, id: nat): Queue
    requires id in q.rqs
  {
    q.(rqs := q.rqs[id := q.rqs[id].(ok := false)], last := if q.last == Some(id) then None else q.last)
  }

  /** attempt_merge's effect on the queue, with elv_merge_requests: `gone` joins `id`. */
  function Join(h: nat -> nat, q: Queue, id: nat, gone: nat): Queue
    requires id in q.rqs && gone in q.rqs && forall x :: h(x) < |q.slots|
  {
    var r := Joined(q.rqs[id], q.rqs[gone]);
    q.(rqs := q.rqs[id := r] - {gone},
       slots := HashDel(HashAdd(HashDel(q.slots, id), h(End(r)), id), gone),
       last := Some(id),
       owner := map x | x in q.owner :: if q.owner[x] == gone then id else q.owner[x])
  }

  /** The tests of attempt_merge. */
  predicate Joins(q: Queue, id: nat, gone: nat, e: Env)
    requires id in q.rqs && gone in q.rqs
  {
    q.rqs[id].ok && q.rqs[gone].ok && End(q.rqs[id]) == q.rqs[gone].pos && e.joins
  }

  /** The bio has joined request `id`. */
  function Took(q: Queue, id: nat, r: Req, b: Bio): Queue {
    q.(rqs := q.rqs[id := r], owner := q.owner[b.id := id],
       pieces := q.pieces[b.id := Piece(b.sector, b.sectors, b.ff)])
  }

  /** The back merge branch. */
  function TakeBack(h: nat -> nat, q: Queue, id: nat, b: Bio, e: Env): Queue
    requires id in q.rqs && (forall x :: h(x) < |q.slots|) && (e.neighbour.Some? ==> e.neighbour.value in q.rqs)
  {
    var r := BackMerged(q.rqs[id], b);
    var q1 := Took(q, id, r, b);
    if e.neighbour.Some? && Joins(q1, id, e.neighbour.value, e) then Join(h, q1, id, e.neighbour.value)
    else q1.(slots := HashAdd(HashDel(q.slots, id), h(End(r)), id), last := Some(id))
  }

  /** The front merge branch. */
  function TakeFront(h: nat -> nat, q: Queue, id: nat, b: Bio, e: Env): Queue
    requires id in q.rqs && (forall x :: h(x) < |q.slots|) && (e.neighbour.Some? ==> e.neighbour.value in q.rqs)
  {
    var q1 := Took(q, id, FrontMerged(q.rqs[id], b), b);
    if e.neighbour.Some? && Joins(q1, e.neighbour.value, id, e) then Join(h, q1, e.neighbour.value, id)
    else q1.(last := Some(id))
  }

  /** What the code around __make_request guarantees: new identities, a neighbour and a
      front merge candidate from the scheduler's sorted tree, and a new request that
      inherits the bio's failfast flags. */
  predicate EnvOk(q: Queue, b: Bio, e: Env) {
    && e.newId !in q.rqs && e.newId !in q.out && b.id !in q.owner && b.ff <= e.newFf
    && (forall x :: x in q.owner ==> q.owner[x] != e.newId)
    && (e.neighbour.Some? ==> e.neighbour.value in q.rqs)
    && (e.front.Some? ==> e.front.value in q.rqs && e.front.value in e.allow && q.rqs[e.front.value].ok
                          && q.rqs[e.front.value].pos == b.sector + b.sectors)
  }

  /** Where __make_request puts the bio, given elv_merge's answer. */
  function PlaceBio(h: nat -> nat, q: Queue, p: Place, b: Bio, e: Env): Queue
    requires Fits(h, q) && EnvOk(q, b, e) && (p != NoMerge ==> p.id in q.rqs && e.neighbour != Some(p.id))
  {
    match p
    case NoMerge => NewRequest(h, q, b, e)
    case Back(id) => if e.fits then TakeBack(h, q, id, b, e) else NewRequest(h, Refused(q, id), b, e)
    case Front(id) => if e.fits then TakeFront(h, q, id, b, e) else NewRequest(h, Refused(q, id), b, e)
  }

  /** elv_dispatch_sort and elv_dispatch_add_tail as far as merging goes. */
  function Dispatched(q: Queue, id: nat): Queue
    requires id in q.rqs
  {
    q.(rqs := q.rqs - {id}, out := q.out[id := q.rqs[id]], slots := HashDel(q.slots, id),
       last := if q.last == Some(id) then None else q.last)
  }
}
