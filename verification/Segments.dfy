/** Scatter-gather segments, block/blk-merge.c: blk_rq_map_sg never needs more entries
    than nr_phys_segments promised, however the request was put together. */
module Segments {

  /** A bio_vec by its physical address; `high` says that its page lies above the bounce
      limit. */
  datatype Vec = Vec(phys: nat, len: nat, high: bool)

  /** blk_queue_cluster, queue_max_segment_size, and the map from an address to the last
      address of its boundary window (the address with the bits of
      queue_segment_boundary set). */
  datatype Limits = Limits(cluster: bool, max: nat, window: int -> int)

  /** BIOVEC_PHYS_MERGEABLE and BIOVEC_SEG_BOUNDARY. */
  predicate Joinable(q: Limits, a: Vec, b: Vec) {
    a.phys + a.len == b.phys && q.window(a.phys) == q.window(b.phys + b.len - 1)
  }

  function Bytes(s: seq<Vec>): nat {
    if s == [] then 0 else Bytes(s[..|s| - 1]) + s[|s| - 1].len
  }

  // ---------------------------------------------------------------- segmentations

  /** blk_rq_map_sg may add the bio_vec to its current entry. */
  predicate Fits(q: Limits, s: seq<Vec>, v: Vec)
    requires s != []
  {
    q.cluster && Bytes(s) + v.len <= q.max && Joinable(q, s[|s| - 1], v)
  }

  /** __blk_recalc_rq_segments may: high pages stay apart.  highprv is only updated at
      the start of a segment. */
  predicate Counts(q: Limits, s: seq<Vec>, v: Vec)
    requires s != []
  {
    !v.high && !s[0].high && Fits(q, s, v)
  }

  /** The segments found by going through the bio_vecs once; with `strict`, by the rule
      of the counter. */
  function Scan(q: Limits, vs: seq<Vec>, strict: bool): (r: seq<seq<Vec>>)
    ensures vs != [] ==> r != []
    ensures forall i :: 0 <= i < |r| ==> r[i] != []
  {
    if vs == [] then []
    else
      var p, v := Scan(q, vs[..|vs| - 1], strict), vs[|vs| - 1];
      if p != [] && (if strict then Counts(q, p[|p| - 1], v) else Fits(q, p[|p| - 1], v))
      then Grown(p, v)
      else p + [[v]]
  }

  /** The bio_vec joins the last segment. */
  function Grown(p: seq<seq<Vec>>, v: Vec): seq<seq<Vec>>
    requires p != []
  {
    p[..|p| - 1] + [p[|p| - 1] + [v]]
  }

  /** A segment the hardware accepts: one bio_vec, or joinable ones within the limit. */
  ghost predicate Legal(q: Limits, s: seq<Vec>) {
    && s != []
    && (|s| > 1 ==> q.cluster && Bytes(s) <= q.max && forall i :: 0 <= i < |s| - 1 ==> Joinable(q, s[i], s[i + 1]))
  }

  function Flat(p: seq<seq<Vec>>): seq<Vec> {
    if p == [] then [] else Flat(p[..|p| - 1]) + p[|p| - 1]
  }

  /** Legal segments that make up the bio_vecs in order. */
  ghost predicate Cuts(q: Limits, p: seq<seq<Vec>>, vs: seq<Vec>) {
    Flat(p) == vs && forall i :: 0 <= i < |p| ==> Legal(q, p[i])
  }

  lemma SnocBytes(s: seq<Vec>, v: Vec)
    ensures Bytes(s + [v]) == Bytes(s) + v.len
  {
    assert (s + [v])[..|s|] == s;
  }

  lemma LegalSnoc(q: Limits, s: seq<Vec>, v: Vec)
    requires Legal(q, s) && Fits(q, s, v)
    ensures Legal(q, s + [v])
  {
    SnocBytes(s, v);
    var t := s + [v];
    forall i | 0 <= i < |t| - 1 ensures Joinable(q, t[i], t[i + 1]) {
      assert i < |s| - 1 ==> t[i] == s[i] && t[i + 1] == s[i + 1];
    }
  }

  lemma FlatSnoc(p: seq<seq<Vec>>, s: seq<Vec>)
    ensures Flat(p + [s]) == Flat(p) + s
  {
    assert (p + [s])[..|p|] == p;
  }

  lemma GrownCuts(q: Limits, p: seq<seq<Vec>>, v: Vec, vs: seq<Vec>)
    requires p != [] && Cuts(q, p, vs) && Fits(q, p[|p| - 1], v)
    ensures Cuts(q, Grown(p, v), vs + [v])
  {
    LegalSnoc(q, p[|p| - 1], v);
    FlatSnoc(p[..|p| - 1], p[|p| - 1] + [v]);
    assert vs + [v] == Flat(p[..|p| - 1]) + (p[|p| - 1] + [v]);
  }

  lemma FreshCuts(q: Limits, p: seq<seq<Vec>>, v: Vec, vs: seq<Vec>)
    requires Cuts(q, p, vs)
    ensures Cuts(q, p + [[v]], vs + [v])
  {
    FlatSnoc(p, [v]);
  }

  /** Both scans cut the bio_vecs into legal segments. */
  lemma {:induction false} ScanCuts(q: Limits, vs: seq<Vec>, strict: bool)
    ensures Cuts(q, Scan(q, vs, strict), vs)
  {
    if vs != [] {
      var p, v := Scan(q, vs[..|vs| - 1], strict), vs[|vs| - 1];
      ScanCuts(q, vs[..|vs| - 1], strict);
      assert vs[..|vs| - 1] + [v] == vs;
      if p != [] && Fits(q, p[|p| - 1], v) { GrownCuts(q, p, v, vs[..|vs| - 1]); }
      FreshCuts(q, p, v, vs[..|vs| - 1]);
    }
  }

  // ------------------------------------------------------------- greedy is optimal

  /** The cut without its last bio_vec. */
  function Shorter(p: seq<seq<Vec>>): seq<seq<Vec>>
    requires p != [] && p[|p| - 1] != []
  {
    var s := p[|p| - 1];
    if |s| == 1 then p[..|p| - 1] else p[..|p| - 1] + [s[..|s| - 1]]
  }

  lemma LegalShorter(q: Limits, s: seq<Vec>)
    requires Legal(q, s) && |s| > 1
    ensures Legal(q, s[..|s| - 1]) && Fits(q, s[..|s| - 1], s[|s| - 1])
  {
    var t := s[..|s| - 1];
    forall i | 0 <= i < |t| - 1 ensures Joinable(q, t[i], t[i + 1]) { assert Joinable(q, s[i], s[i + 1]); }
    assert Joinable(q, s[|s| - 2], s[|s| - 2 + 1]);
  }

  lemma ShorterCuts(q: Limits, p: seq<seq<Vec>>, vs: seq<Vec>)
    requires Cuts(q, p, vs) && p != []
    ensures vs != [] && Cuts(q, Shorter(p), vs[..|vs| - 1]) && p[|p| - 1][|p[|p| - 1]| - 1] == vs[|vs| - 1]
  {
    var s := p[|p| - 1];
    assert vs == Flat(p[..|p| - 1]) + s;
    if |s| == 1 {
      assert vs[..|vs| - 1] == Flat(p[..|p| - 1]);
    } else {
      LegalShorter(q, s);
      FlatSnoc(p[..|p| - 1], s[..|s| - 1]);
      assert vs[..|vs| - 1] == Flat(p[..|p| - 1]) + s[..|s| - 1];
    }
  }

  /** The length of the last segment. */
  function Tail(p: seq<seq<Vec>>): nat { if p == [] then 0 else Bytes(p[|p| - 1]) }

  /** Greedy is ahead of any other cut: fewer segments, or as many with a shorter last
      one. */
  ghost predicate Ahead(g: seq<seq<Vec>>, p: seq<seq<Vec>>) {
    |g| < |p| || (|g| == |p| && Tail(g) <= Tail(p))
  }

  lemma TailGrows(p: seq<seq<Vec>>, v: Vec)
    ensures Tail(p + [[v]]) == v.len
    ensures p != [] ==> Tail(Grown(p, v)) == Tail(p) + v.len
  {
    SnocBytes([], v);
    assert [] + [v] == [v];
    if p != [] { SnocBytes(p[|p| - 1], v); }
  }

  /** How the last bio_vec got into a cut. */
  lemma ShorterTail(q: Limits, p: seq<seq<Vec>>, v: Vec)
    requires p != [] && Legal(q, p[|p| - 1]) && p[|p| - 1][|p[|p| - 1]| - 1] == v
    ensures || (|Shorter(p)| == |p| && Tail(p) == Tail(Shorter(p)) + v.len && Shorter(p) != []
                && Fits(q, Shorter(p)[|p| - 1], v))
            || (|Shorter(p)| == |p| - 1 && Tail(p) == v.len)
  {
    var s := p[|p| - 1];
    assert s[..|s| - 1] + [v] == s;
    SnocBytes(s[..|s| - 1], v);
    if |s| > 1 { LegalShorter(q, s); }
  }

  lemma StepAhead(q: Limits, g: seq<seq<Vec>>, p: seq<seq<Vec>>, vs: seq<Vec>)
    requires vs != [] && g == Scan(q, vs[..|vs| - 1], false) && p != [] && Legal(q, p[|p| - 1])
    requires p[|p| - 1][|p[|p| - 1]| - 1] == vs[|vs| - 1]
    requires Ahead(g, Shorter(p))
    requires g != [] && Shorter(p) != [] && |Shorter(p)| == |p| ==>
               g[|g| - 1][|g[|g| - 1]| - 1] == Shorter(p)[|p| - 1][|Shorter(p)[|p| - 1]| - 1]
    ensures Ahead(Scan(q, vs, false), p)
  {
    TailGrows(g, vs[|vs| - 1]);
    ShorterTail(q, p, vs[|vs| - 1]);
  }

  /** Two cuts of the same bio_vecs end in the same one. */
  lemma LastOf(q: Limits, g: seq<seq<Vec>>, p: seq<seq<Vec>>, vs: seq<Vec>)
    requires Cuts(q, g, vs) && Cuts(q, p, vs) && g != [] && p != []
    ensures g[|g| - 1][|g[|g| - 1]| - 1] == p[|p| - 1][|p[|p| - 1]| - 1]
  {
    ShorterCuts(q, g, vs);
    ShorterCuts(q, p, vs);
  }

  /** Greedy segmentation is optimal: no legal cut has fewer segments. */
  lemma {:induction false} GreedyIsAhead(q: Limits, p: seq<seq<Vec>>, vs: seq<Vec>)
    requires Cuts(q, p, vs)
    ensures Ahead(Scan(q, vs, false), p)
    decreases |vs|
  {
    if p != [] {
      ShorterCuts(q, p, vs);
      GreedyIsAhead(q, Shorter(p), vs[..|vs| - 1]);
      ScanCuts(q, vs[..|vs| - 1], false);
      var g := Scan(q, vs[..|vs| - 1], false);
      if g != [] && Shorter(p) != [] { LastOf(q, g, Shorter(p), vs[..|vs| - 1]); }
      StepAhead(q, g, p, vs);
    }
  }

  // -------------------------------------------------------- nr_phys_segments suffices

  /** A request or bio: its bio_vecs, nr_phys_segments, bi_seg_front_size of its first
      bio and bi_seg_back_size of its last. */
  datatype Rq = Rq(vecs: seq<Vec>, n: int, front: nat, back: nat)

  function Max(a: nat, b: nat): nat { if a > b then a else b }

  /** __blk_recalc_rq_segments; the recorded sizes only grow. */
  function Recounted(q: Limits, vs: seq<Vec>, front: nat, back: nat): Rq {
    var p := Scan(q, vs, true);
    Rq(vs, |p|, if p == [] then front else Max(front, Bytes(p[0])), Max(back, Tail(p)))
  }

  /** A bio merged at the back (or a request before one) as ll_new_hw_segment counts. */
  function Appended(r: Rq, b: Rq): Rq { Rq(r.vecs + b.vecs, r.n + b.n, r.front, b.back) }

  /** blk_phys_contig_segment for requests with data. */
  predicate Contiguous(q: Limits, r: Rq, x: Rq) {
    && q.cluster && r.back + x.front <= q.max
    && r.vecs != [] && x.vecs != [] && Joinable(q, r.vecs[|r.vecs| - 1], x.vecs[0])
  }

  /** ll_merge_requests_fn: one segment less if the two meet in one. */
  function Joined(q: Limits, r: Rq, x: Rq): Rq {
    if Contiguous(q, r, x) then
      var size := r.back + x.front;
      Rq(r.vecs + x.vecs, r.n + x.n - 1, if r.n == 1 then size else r.front, if x.n == 1 then size else x.back)
    else Appended(r, x)
  }

  /** p is a legal cut into as many segments as promised, with a first and a last one no
      longer than recorded. */
  ghost predicate Witness(q: Limits, r: Rq, p: seq<seq<Vec>>) {
    Cuts(q, p, r.vecs) && |p| == r.n && (p != [] ==> Bytes(p[0]) <= r.front && Tail(p) <= r.back)
  }

  lemma {:induction false} FlatAppend(a: seq<seq<Vec>>, b: seq<seq<Vec>>)
    ensures Flat(a + b) == Flat(a) + Flat(b)
  {
    if b == [] {
      assert a + b == a;
    } else {
      assert (a + b)[..|a + b| - 1] == a + b[..|b| - 1];
      FlatAppend(a, b[..|b| - 1]);
    }
  }

  lemma {:induction false} BytesAppend(a: seq<Vec>, b: seq<Vec>)
    ensures Bytes(a + b) == Bytes(a) + Bytes(b)
  {
    if b == [] {
      assert a + b == a;
    } else {
      assert (a + b)[..|a + b| - 1] == a + b[..|b| - 1];
      BytesAppend(a, b[..|b| - 1]);
    }
  }

  lemma CutNonempty(q: Limits, p: seq<seq<Vec>>, vs: seq<Vec>)
    requires Cuts(q, p, vs)
    ensures p == [] <==> vs == []
    ensures p != [] ==> vs[|vs| - 1] == p[|p| - 1][|p[|p| - 1]| - 1] && vs[0] == p[0][0]
  {
    if p != [] {
      assert vs == Flat(p[..|p| - 1]) + p[|p| - 1];
      FlatAppend([p[0]], p[1..]);
      assert [p[0]] + p[1..] == p;
      FlatSnoc([], p[0]);
      assert [] + [p[0]] == [p[0]];
    }
  }

  lemma AppendWitness(q: Limits, r: Rq, b: Rq, p: seq<seq<Vec>>, t: seq<seq<Vec>>)
    requires Witness(q, r, p) && Witness(q, b, t) && r.vecs != [] && b.vecs != []
    ensures Witness(q, Appended(r, b), p + t)
  {
    FlatAppend(p, t);
    CutNonempty(q, p, r.vecs);
    CutNonempty(q, t, b.vecs);
  }

  lemma FusedLegal(q: Limits, a: seq<Vec>, b: seq<Vec>)
    requires Legal(q, a) && Legal(q, b) && q.cluster && Bytes(a) + Bytes(b) <= q.max && Joinable(q, a[|a| - 1], b[0])
    ensures Legal(q, a + b) && Bytes(a + b) == Bytes(a) + Bytes(b)
  {
    BytesAppend(a, b);
    var s := a + b;
    forall i | 0 <= i < |s| - 1 ensures Joinable(q, s[i], s[i + 1]) {
      if i < |a| - 1 { assert Joinable(q, a[i], a[i + 1]); }
      else if i >= |a| { assert Joinable(q, b[i - |a|], b[i - |a| + 1]); }
    }
  }

  function Fused(p: seq<seq<Vec>>, t: seq<seq<Vec>>): seq<seq<Vec>>
    requires p != [] && t != []
  {
    p[..|p| - 1] + [p[|p| - 1] + t[0]] + t[1..]
  }

  lemma FusedFlat(p: seq<seq<Vec>>, t: seq<seq<Vec>>)
    requires p != [] && t != []
    ensures Flat(Fused(p, t)) == Flat(p) + Flat(t)
  {
    var a, b, c, d := p[..|p| - 1], p[|p| - 1], t[0], t[1..];
    FlatSnoc(a, b + c);
    FlatAppend(a + [b + c], d);
    FlatAppend([c], d);
    assert [c] + d == t;
    FlatSnoc([], c);
    assert [] + [c] == [c];
    assert Flat(a) + (b + c) + Flat(d) == (Flat(a) + b) + (c + Flat(d));
  }

  /** Fusing the two segments that meet is legal when the recorded sizes say so. */
  lemma JoinWitness(q: Limits, r: Rq, x: Rq, p: seq<seq<Vec>>, t: seq<seq<Vec>>)
    requires Witness(q, r, p) && Witness(q, x, t) && p != [] && t != [] && Contiguous(q, r, x)
    ensures Witness(q, Joined(q, r, x), Fused(p, t))
  {
    CutNonempty(q, p, r.vecs);
    CutNonempty(q, t, x.vecs);
    FusedLegal(q, p[|p| - 1], t[0]);
    FusedFlat(p, t);
  }

  /** What ll_merge_requests_fn writes to the two requests before it looks at the number of
      segments. */
  function FrontRaised(q: Limits, r: Rq, x: Rq): Rq {
    if Contiguous(q, r, x) && r.n == 1 then r.(front := r.back + x.front) else r
  }

  function BackRaised(q: Limits, r: Rq, x: Rq): Rq {
    if Contiguous(q, r, x) && x.n == 1 then x.(back := r.back + x.front) else x
  }

  /** A raised size still bounds the one segment it is about. */
  lemma RaisedWitness(q: Limits, r: Rq, x: Rq, p: seq<seq<Vec>>, t: seq<seq<Vec>>)
    requires Witness(q, r, p) && Witness(q, x, t) && p != [] && t != []
    ensures Witness(q, FrontRaised(q, r, x), p) && Witness(q, BackRaised(q, r, x), t)
  {
  }

  /** The last and the first `k` bio_vecs of a request, all of them if there are fewer. */
  function LastVecs(vs: seq<Vec>, k: nat): seq<Vec> { if k < |vs| then vs[|vs| - k..] else vs }

  function FirstVecs(vs: seq<Vec>, k: nat): seq<Vec> { if k < |vs| then vs[..k] else vs }

  /** Before a back merge ll_back_merge_fn may recount the last bio of the request: this can
      raise bi_seg_back_size, and bi_seg_front_size if it is the only bio. */
  function TailRecounted(q: Limits, r: Rq, k: nat): Rq {
    var c := Recounted(q, LastVecs(r.vecs, k), r.front, r.back);
    r.(front := if k < |r.vecs| then r.front else c.front, back := c.back)
  }

  /** Likewise ll_front_merge_fn and the first bio. */
  function HeadRecounted(q: Limits, r: Rq, k: nat): Rq {
    var c := Recounted(q, FirstVecs(r.vecs, k), r.front, r.back);
    r.(front := c.front, back := if k < |r.vecs| then r.back else c.back)
  }

  /** A recount never lowers a recorded size, and it leaves nr_phys_segments alone. */
  lemma RecountedBioWitness(q: Limits, r: Rq, k: nat, p: seq<seq<Vec>>)
    requires Witness(q, r, p)
    ensures Witness(q, TailRecounted(q, r, k), p) && Witness(q, HeadRecounted(q, r, k), p)
  {
  }

  /** All the ways a request comes about: a (re)counted chain of bio_vecs, a counted bio
      merged at the back or the front, the recount of the request's last or first bio that
      precedes such a merge (and stays if the merge is refused), two requests merged, and
      either of two requests whose merge was refused only after their recorded sizes had been
      raised. */
  datatype Build =
    | Counted(vs: seq<Vec>, front: nat, back: nat)
    | Back(rq: Build, vs: seq<Vec>, front: nat, back: nat)
    | Front(vs: seq<Vec>, front: nat, back: nat, rq: Build)
    | TailCounted(rq: Build, k: nat)
    | HeadCounted(rq: Build, k: nat)
    | Merged(rq: Build, next: Build)
    | RefusedFirst(rq: Build, next: Build)
    | RefusedSecond(rq: Build, next: Build)

  function Result(q: Limits, b: Build): Rq {
    match b
    case Counted(vs, f, k) => Recounted(q, vs, f, k)
    case Back(rq, vs, f, k) => Appended(Result(q, rq), Recounted(q, vs, f, k))
    case Front(vs, f, k, rq) => Appended(Recounted(q, vs, f, k), Result(q, rq))
    case TailCounted(rq, k) => TailRecounted(q, Result(q, rq), k)
    case HeadCounted(rq, k) => HeadRecounted(q, Result(q, rq), k)
    case Merged(rq, next) => Joined(q, Result(q, rq), Result(q, next))
    case RefusedFirst(rq, next) => FrontRaised(q, Result(q, rq), Result(q, next))
    case RefusedSecond(rq, next) => BackRaised(q, Result(q, rq), Result(q, next))
  }

  predicate HasData(b: Build) {
    match b
    case Counted(vs, _, _) => vs != []
    case Back(rq, vs, _, _) => vs != [] && HasData(rq)
    case Front(vs, _, _, rq) => vs != [] && HasData(rq)
    case TailCounted(rq, _) => HasData(rq)
    case HeadCounted(rq, _) => HasData(rq)
    case Merged(rq, next) => HasData(rq) && HasData(next)
    case RefusedFirst(rq, next) => HasData(rq) && HasData(next)
    case RefusedSecond(rq, next) => HasData(rq) && HasData(next)
  }

  lemma RecountWitness(q: Limits, vs: seq<Vec>, front: nat, back: nat)
    ensures Witness(q, Recounted(q, vs, front, back), Scan(q, vs, true))
  {
    ScanCuts(q, vs, true);
  }

  lemma {:induction false} BuildWitness(q: Limits, b: Build) returns (p: seq<seq<Vec>>)
    requires HasData(b)
    ensures Witness(q, Result(q, b), p) && Result(q, b).vecs != [] && p != []
  {
    match b
    case Counted(vs, f, k) =>
      RecountWitness(q, vs, f, k);
      p := Scan(q, vs, true);
    case Back(rq, vs, f, k) =>
      var p0 := BuildWitness(q, rq);
      RecountWitness(q, vs, f, k);
      AppendWitness(q, Result(q, rq), Recounted(q, vs, f, k), p0, Scan(q, vs, true));
      p := p0 + Scan(q, vs, true);
    case Front(vs, f, k, rq) =>
      var p0 := BuildWitness(q, rq);
      RecountWitness(q, vs, f, k);
      AppendWitness(q, Recounted(q, vs, f, k), Result(q, rq), Scan(q, vs, true), p0);
      p := Scan(q, vs, true) + p0;
    case TailCounted(rq, k) =>
      p := BuildWitness(q, rq);
      RecountedBioWitness(q, Result(q, rq), k, p);
    case HeadCounted(rq, k) =>
      p := BuildWitness(q, rq);
      RecountedBioWitness(q, Result(q, rq), k, p);
    case Merged(rq, next) =>
      var p0 := BuildWitness(q, rq);
      var p1 := BuildWitness(q, next);
      if Contiguous(q, Result(q, rq), Result(q, next)) {
        JoinWitness(q, Result(q, rq), Result(q, next), p0, p1);
        p := Fused(p0, p1);
      } else {
        AppendWitness(q, Result(q, rq), Result(q, next), p0, p1);
        p := p0 + p1;
      }
    case RefusedFirst(rq, next) =>
      p := BuildWitness(q, rq);
      var p1 := BuildWitness(q, next);
      RaisedWitness(q, Result(q, rq), Result(q, next), p, p1);
    case RefusedSecond(rq, next) =>
      var p0 := BuildWitness(q, rq);
      p := BuildWitness(q, next);
      RaisedWitness(q, Result(q, rq), Result(q, next), p0, p);
  }

  // ------------------------------------------------------------ what entries cover

  /** A scatterlist entry. */
  datatype Entry = Entry(phys: nat, len: nat)

  /** The addresses of the bio_vecs' bytes, in order. */
  function Memory(vs: seq<Vec>): seq<int> {
    if vs == [] then [] else Memory(vs[..|vs| - 1]) + Range(vs[|vs| - 1].phys, vs[|vs| - 1].len)
  }

  function Range(start: nat, len: nat): seq<int> { seq(len, i => start + i) }

  function Reached(sg: seq<Entry>): seq<int> {
    if sg == [] then [] else Reached(sg[..|sg| - 1]) + Range(sg[|sg| - 1].phys, sg[|sg| - 1].len)
  }

  function EntryOf(s: seq<Vec>): Entry { Entry(if s == [] then 0 else s[0].phys, Bytes(s)) }

  function Entries(p: seq<seq<Vec>>): seq<Entry> {
    if p == [] then [] else Entries(p[..|p| - 1]) + [EntryOf(p[|p| - 1])]
  }

  lemma RangeAppend(start: nat, a: nat, b: nat)
    ensures Range(start, a) + Range(start + a, b) == Range(start, a + b)
  {
  }

  lemma {:induction false} SegmentEnd(q: Limits, s: seq<Vec>)
    requires Legal(q, s)
    ensures s[|s| - 1].phys + s[|s| - 1].len == s[0].phys + Bytes(s)
  {
    if |s| > 1 {
      LegalShorter(q, s);
      SegmentEnd(q, s[..|s| - 1]);
    } else {
      assert s[..0] == [];
    }
  }

  /** A legal segment is one stretch of memory. */
  lemma {:induction false} SegmentMemory(q: Limits, s: seq<Vec>)
    requires Legal(q, s)
    ensures Memory(s) == Range(s[0].phys, Bytes(s))
  {
    var t, v := s[..|s| - 1], s[|s| - 1];
    if |s| > 1 {
      LegalShorter(q, s);
      SegmentEnd(q, t);
      SegmentMemory(q, t);
      RangeAppend(s[0].phys, Bytes(t), v.len);
      assert Memory(s) == Memory(t) + Range(v.phys, v.len);
    } else {
      assert t == [];
    }
  }

  lemma {:induction false} MemoryAppend(a: seq<Vec>, b: seq<Vec>)
    ensures Memory(a + b) == Memory(a) + Memory(b)
  {
    if b == [] {
      assert a + b == a;
    } else {
      assert (a + b)[..|a + b| - 1] == a + b[..|b| - 1];
      MemoryAppend(a, b[..|b| - 1]);
    }
  }

  /** The entries cover the request's bytes, in order. */
  lemma {:induction false} EntriesCover(q: Limits, p: seq<seq<Vec>>, vs: seq<Vec>)
    requires Cuts(q, p, vs)
    ensures Reached(Entries(p)) == Memory(vs)
    decreases |p|
  {
    if p != [] {
      var o, s := p[..|p| - 1], p[|p| - 1];
      EntriesCover(q, o, Flat(o));
      SegmentMemory(q, s);
      MemoryAppend(Flat(o), s);
      assert Entries(p)[..|Entries(p)| - 1] == Entries(o);
    }
  }

  /** Windows follow each other, as they do for every mask of low bits. */
  ghost predicate Ascending(window: int -> int) { forall a, b :: a <= b ==> window(a) <= window(b) }

  /** An entry of several bio_vecs keeps to the size limit and to one boundary window,
      although only neighbours are ever compared. */
  lemma {:induction false} EntryKeepsLimits(q: Limits, s: seq<Vec>)
    requires Ascending(q.window) && Legal(q, s) && |s| > 1 && forall i :: 0 <= i < |s| ==> s[i].len > 0
    ensures var e := EntryOf(s); e.len <= q.max && q.window(e.phys) == q.window(e.phys + e.len - 1)
  {
    SegmentEnd(q, s);
    LegalShorter(q, s);
    var t := s[..|s| - 1];
    if |t| > 1 {
      EntryKeepsLimits(q, t);
      var last := t[|t| - 1];
      PrefixStart(q, t);
      assert q.window(t[0].phys) <= q.window(last.phys) <= q.window(t[0].phys + Bytes(t) - 1);
    }
  }

  lemma PrefixStart(q: Limits, t: seq<Vec>)
    requires Legal(q, t) && t[|t| - 1].len > 0
    ensures t[0].phys <= t[|t| - 1].phys <= t[0].phys + Bytes(t) - 1
  {
    SegmentEnd(q, t);
  }

  /** The scatterlist of the greedy segments. */
  function Mapped(q: Limits, vs: seq<Vec>): seq<Entry> { Entries(Scan(q, vs, false)) }

  lemma {:induction false} EntriesLength(p: seq<seq<Vec>>)
    ensures |Entries(p)| == |p|
  {
    if p != [] { EntriesLength(p[..|p| - 1]); }
  }

  /** However a request was counted and merged, mapping it fills at most
      nr_phys_segments entries. */
  lemma EntriesFit(q: Limits, b: Build)
    requires HasData(b)
    ensures |Mapped(q, Result(q, b).vecs)| <= Result(q, b).n
  {
    var p := BuildWitness(q, b);
    GreedyIsAhead(q, p, Result(q, b).vecs);
    EntriesLength(Scan(q, Result(q, b).vecs, false));
  }

  // ------------------------------------------------------------------ the loops

  /** What the counter remembers of the segments so far: nr_phys_segs, seg_size,
      highprv, bvprv and the length of the first segment. */
  datatype Tally = Tally(n: nat, size: nat, highprv: bool, prev: Vec, first: nat)

  function TallyOf(p: seq<seq<Vec>>): Tally
    requires p != [] && p[|p| - 1] != []
  {
    var s := p[|p| - 1];
    Tally(|p|, Bytes(s), s[0].high, s[|s| - 1], Bytes(p[0]))
  }

  lemma TallyStep(q: Limits, vs: seq<Vec>, i: nat)
    requires 0 < i < |vs|
    ensures var t, v := TallyOf(Scan(q, vs[..i], true)), vs[i];
            TallyOf(Scan(q, vs[..i + 1], true))
            == if !(v.high || t.highprv) && q.cluster && t.size + v.len <= q.max && Joinable(q, t.prev, v)
               then Tally(t.n, t.size + v.len, t.highprv, v, if t.n == 1 then t.size + v.len else t.first)
               else Tally(t.n + 1, v.len, v.high, v, t.first)
  {
    assert vs[..i + 1][..i] == vs[..i];
    TailGrows(Scan(q, vs[..i], true), vs[i]);
  }

  lemma TallyStart(q: Limits, vs: seq<Vec>)
    requires vs != []
    ensures TallyOf(Scan(q, vs[..1], true)) == Tally(1, vs[0].len, vs[0].high, vs[0], vs[0].len)
  {
    assert vs[..1][..0] == [];
    TailGrows([], vs[0]);
    assert Scan(q, vs[..1], true) == [[vs[0]]];
  }

  /** __blk_recalc_rq_segments over the bio_vecs of a chain. */
  method RecalcSegments(q: Limits, vs: seq<Vec>, front: nat, back: nat) returns (r: Rq)
    ensures r == Recounted(q, vs, front, back)
  {
    var n, size, highprv, f := 0, 0, true, front;
    var prev := Vec(0, 0, true);
    for i := 0 to |vs|
      invariant i == 0 ==> n == 0 && size == 0 && highprv && f == front
      invariant i > 0 ==> var t := TallyOf(Scan(q, vs[..i], true));
                          && n == t.n && size == t.size && highprv == t.highprv && prev == t.prev
                          && f == (if n > 1 then Max(front, t.first) else front) && (n == 1 ==> size == t.first)
    {
      var v := vs[i];
      if i > 0 { TallyStep(q, vs, i); } else { TallyStart(q, vs); }
      if !(v.high || highprv) && q.cluster && size + v.len <= q.max && Joinable(q, prev, v) {
        size := size + v.len;
        prev := v;
      } else {
        if n == 1 && size > f {
          f := size;
        }
        n, prev, size, highprv := n + 1, v, v.len, v.high;
      }
    }
    assert vs[..|vs|] == vs;
    if n == 1 && size > f {
      f := size;
    }
    r := Rq(vs, n, f, if size > back then size else back);
  }

  lemma EntriesSnoc(p: seq<seq<Vec>>, s: seq<Vec>)
    ensures Entries(p + [s]) == Entries(p) + [EntryOf(s)]
  {
    assert (p + [s])[..|p|] == p;
  }

  lemma EntryGrows(s: seq<Vec>, v: Vec)
    ensures EntryOf([v]) == Entry(v.phys, v.len)
    ensures s != [] ==> EntryOf(s + [v]) == Entry(EntryOf(s).phys, EntryOf(s).len + v.len)
  {
    SnocBytes([], v);
    assert [] + [v] == [v];
    SnocBytes(s, v);
  }

  /** A bio_vec that joins the last segment lengthens the last entry. */
  lemma EntriesGrow(p: seq<seq<Vec>>, v: Vec)
    requires p != [] && p[|p| - 1] != []
    ensures var sg := Entries(p);
            && sg != [] && sg[|sg| - 1].len == Tail(p)
            && Entries(Grown(p, v)) == sg[|sg| - 1 := Entry(sg[|sg| - 1].phys, sg[|sg| - 1].len + v.len)]
  {
    var o, s := p[..|p| - 1], p[|p| - 1];
    EntriesSnoc(o, s + [v]);
    EntryGrows(s, v);
    assert Entries(p) == Entries(o) + [EntryOf(s)];
  }

  /** blk_rq_map_sg, padding and drain buffer aside. */
  method MapSg(q: Limits, vs: seq<Vec>) returns (sg: seq<Entry>)
    ensures sg == Mapped(q, vs)
  {
    sg := [];
    for i := 0 to |vs|
      invariant sg == Mapped(q, vs[..i])
    {
      var v := vs[i];
      MappedStep(q, vs, i);
      if i > 0 && q.cluster && sg[|sg| - 1].len + v.len <= q.max && Joinable(q, vs[i - 1], v) {
        sg := sg[|sg| - 1 := Entry(sg[|sg| - 1].phys, sg[|sg| - 1].len + v.len)];
      } else {
        sg := sg + [Entry(v.phys, v.len)];
      }
    }
    assert vs[..|vs|] == vs;
  }

  lemma MappedStep(q: Limits, vs: seq<Vec>, i: nat)
    requires i < |vs|
    ensures var sg, v := Mapped(q, vs[..i]), vs[i];
            && (i > 0 ==> sg != [])
            && Mapped(q, vs[..i + 1])
               == if i > 0 && q.cluster && sg[|sg| - 1].len + v.len <= q.max && Joinable(q, vs[i - 1], v)
                  then sg[|sg| - 1 := Entry(sg[|sg| - 1].phys, sg[|sg| - 1].len + v.len)]
                  else sg + [Entry(v.phys, v.len)]
  {
    ScanStep(q, vs, i);
    var p := Scan(q, vs[..i], false);
    EntriesSnoc(p, [vs[i]]);
    EntryGrows([], vs[i]);
    if i > 0 { EntriesGrow(p, vs[i]); }
  }

  lemma ScanStep(q: Limits, vs: seq<Vec>, i: nat)
    requires i < |vs|
    ensures var p := Scan(q, vs[..i], false);
            Scan(q, vs[..i + 1], false)
            == if i > 0 && q.cluster && Tail(p) + vs[i].len <= q.max && Joinable(q, vs[i - 1], vs[i])
               then Grown(p, vs[i]) else p + [[vs[i]]]
  {
    assert vs[..i + 1][..i] == vs[..i];
    if i > 0 { ScanEnds(q, vs[..i]); }
  }

  /** The scan's last segment ends with the last bio_vec. */
  lemma ScanEnds(q: Limits, vs: seq<Vec>)
    requires vs != []
    ensures var p := Scan(q, vs, false); p[|p| - 1][|p[|p| - 1]| - 1] == vs[|vs| - 1]
  {
    ScanCuts(q, vs, false);
    CutNonempty(q, Scan(q, vs, false), vs);
  }
}
