/** Partial completion of requests: blk_update_request, req_bio_endio and
    blk_rq_err_bytes of block/blk-core.c (requests other than the barrier proxy). */
module Completion {

  /** A bio_vec: a stretch of a page. */
  datatype Vec = Vec(page: nat, offset: nat, len: nat)

  /** A bio: bi_sector, bi_size, the bio_vecs from bi_idx on, BIO_UPTODATE and the
      failfast flags of bi_rw. */
  datatype Bio = Bio(id: nat, sector: nat, size: nat, vecs: seq<Vec>, uptodate: bool, ff: set<nat>)

  /** A call of bi_end_io. */
  datatype End = End(id: nat, error: int)

  const EIO := 5

  function VecBytes(vecs: seq<Vec>): nat {
    if vecs == [] then 0 else vecs[0].len + VecBytes(vecs[1..])
  }

  predicate BioOk(b: Bio) { b.size > 0 && VecBytes(b.vecs) == b.size }

  predicate ChainOk(bios: seq<Bio>) { forall i :: 0 <= i < |bios| ==> BioOk(bios[i]) }

  function ChainBytes(bios: seq<Bio>): nat {
    if bios == [] then 0 else bios[0].size + ChainBytes(bios[1..])
  }

  // --------------------------------------------------- what completing n bytes leaves

  /** The bio_vecs without their first n bytes. */
  function DropBytes(vecs: seq<Vec>, n: nat): seq<Vec> {
    if vecs == [] || n == 0 then vecs
    else if n >= vecs[0].len then DropBytes(vecs[1..], n - vecs[0].len)
    else [Vec(vecs[0].page, vecs[0].offset + n, vecs[0].len - n)] + vecs[1..]
  }

  /** req_bio_endio for a bio that is not finished by these n bytes. */
  function Trimmed(b: Bio, n: nat, error: int): Bio
    requires n < b.size
  {
    if n == 0 then b
    else b.(size := b.size - n, sector := b.sector + n / 512, vecs := DropBytes(b.vecs, n),
            uptodate := b.uptodate && error == 0)
  }

  /** req_bio_endio for a bio that is finished: the error its owner gets. */
  function Ended(b: Bio, error: int): End {
    End(b.id, if error == 0 && !b.uptodate then -EIO else error)
  }

  /** The chain after n bytes have been completed. */
  function Left(bios: seq<Bio>, n: nat, error: int): seq<Bio> {
    if bios == [] then []
    else if n >= bios[0].size then Left(bios[1..], n - bios[0].size, error)
    else [Trimmed(bios[0], n, error)] + bios[1..]
  }

  /** The bios that end. */
  function Ends(bios: seq<Bio>, n: nat, error: int): seq<End> {
    if bios == [] || n < bios[0].size then []
    else [Ended(bios[0], error)] + Ends(bios[1..], n - bios[0].size, error)
  }

  // ------------------------------------------------------------- exactly n bytes

  /** One byte of data in memory, with the bio it belongs to. */
  datatype Byte = Byte(bio: nat, page: nat, offset: int)

  function Stretch(id: nat, v: Vec): seq<Byte> { seq(v.len, i => Byte(id, v.page, v.offset + i)) }

  function Bytes(id: nat, vecs: seq<Vec>): seq<Byte> {
    if vecs == [] then [] else Stretch(id, vecs[0]) + Bytes(id, vecs[1..])
  }

  function Data(bios: seq<Bio>): seq<Byte> {
    if bios == [] then [] else Bytes(bios[0].id, bios[0].vecs) + Data(bios[1..])
  }

  lemma {:induction false} BytesLength(id: nat, vecs: seq<Vec>)
    ensures |Bytes(id, vecs)| == VecBytes(vecs)
  {
    if vecs != [] { BytesLength(id, vecs[1..]); }
  }

  lemma SplitDrop<T>(s: seq<T>, t: seq<T>, n: nat)
    requires n <= |s| + |t|
    ensures (s + t)[n..] == if n >= |s| then t[n - |s|..] else s[n..] + t
  {
  }

  lemma {:induction false} DropIsDrop(id: nat, vecs: seq<Vec>, n: nat)
    requires n <= VecBytes(vecs)
    ensures VecBytes(DropBytes(vecs, n)) == VecBytes(vecs) - n
    ensures |Bytes(id, vecs)| == VecBytes(vecs) && Bytes(id, DropBytes(vecs, n)) == Bytes(id, vecs)[n..]
  {
    BytesLength(id, vecs);
    if vecs != [] && n > 0 {
      var v := vecs[0];
      SplitDrop(Stretch(id, v), Bytes(id, vecs[1..]), n);
      if n >= v.len {
        DropIsDrop(id, vecs[1..], n - v.len);
      } else {
        var w := Vec(v.page, v.offset + n, v.len - n);
        assert Stretch(id, w) == Stretch(id, v)[n..];
        assert ([w] + vecs[1..])[1..] == vecs[1..];
      }
    }
  }

  lemma {:induction false} DataLength(bios: seq<Bio>)
    requires ChainOk(bios)
    ensures |Data(bios)| == ChainBytes(bios)
  {
    if bios != [] {
      BytesLength(bios[0].id, bios[0].vecs);
      DataLength(bios[1..]);
    }
  }

  /** Completing n bytes removes exactly the first n bytes of data; the chain stays well
      formed and its sizes add up to what is left. */
  lemma {:induction false} ConsumesFirstBytes(bios: seq<Bio>, n: nat, error: int)
    requires ChainOk(bios)
    ensures ChainOk(Left(bios, n, error))
    ensures |Data(bios)| == ChainBytes(bios)
    ensures var m := if n <= ChainBytes(bios) then n else ChainBytes(bios);
            && Data(Left(bios, n, error)) == Data(bios)[m..]
            && ChainBytes(Left(bios, n, error)) == ChainBytes(bios) - m
  {
    DataLength(bios);
    if bios != [] {
      var b := bios[0];
      BytesLength(b.id, b.vecs);
      if n >= b.size {
        ConsumesFirstBytes(bios[1..], n - b.size, error);
        SplitDrop(Bytes(b.id, b.vecs), Data(bios[1..]), if n <= ChainBytes(bios) then n else ChainBytes(bios));
      } else {
        DropIsDrop(b.id, b.vecs, n);
        var t := Trimmed(b, n, error);
        assert Bytes(t.id, t.vecs) == Bytes(b.id, b.vecs)[n..];
        assert ([t] + bios[1..])[1..] == bios[1..];
        SplitDrop(Bytes(b.id, b.vecs), Data(bios[1..]), n);
      }
    }
  }

  function Ids(bios: seq<Bio>): seq<nat> { seq(|bios|, i requires 0 <= i < |bios| => bios[i].id) }

  function EndIds(ends: seq<End>): seq<nat> { seq(|ends|, i requires 0 <= i < |ends| => ends[i].id) }

  /** Bios end once each and in order: those that ended, then those that are left. */
  lemma {:induction false} EndsInOrder(bios: seq<Bio>, n: nat, error: int)
    ensures EndIds(Ends(bios, n, error)) + Ids(Left(bios, n, error)) == Ids(bios)
  {
    if bios != [] && n >= bios[0].size {
      EndsInOrder(bios[1..], n - bios[0].size, error);
      assert Ids(bios) == [bios[0].id] + Ids(bios[1..]);
      var rest := Ends(bios[1..], n - bios[0].size, error);
      assert EndIds([Ended(bios[0], error)] + rest) == [bios[0].id] + EndIds(rest);
    }
  }

  // ------------------------------------------------------- completing in two steps

  lemma {:induction false} DropTwice(vecs: seq<Vec>, a: nat, b: nat)
    requires a + b < VecBytes(vecs)
    ensures DropBytes(DropBytes(vecs, a), b) == DropBytes(vecs, a + b)
  {
    if vecs != [] && a > 0 && b > 0 {
      var v := vecs[0];
      if a >= v.len {
        DropTwice(vecs[1..], a - v.len, b);
      } else {
        var w := Vec(v.page, v.offset + a, v.len - a);
        assert ([w] + vecs[1..])[1..] == vecs[1..];
      }
    }
  }

  /** Completing a bytes and then b loses no sector: the second step reaches into another
      bio than the first, or the odd bytes the two complete of that bio are fewer than a
      sector. */
  predicate NoSectorLost(bios: seq<Bio>, a: nat, b: nat) {
    if bios == [] then true
    else if a >= bios[0].size then NoSectorLost(bios[1..], a - bios[0].size, b)
    else a + b >= bios[0].size || a % 512 + b % 512 < 512
  }

  /** The chain without its sector numbers. */
  function Unplaced(bios: seq<Bio>): seq<Bio> {
    seq(|bios|, i requires 0 <= i < |bios| => bios[i].(sector := 0))
  }

  lemma TrimTwice(x: Bio, a: nat, b: nat, error: int)
    requires BioOk(x) && a + b < x.size
    ensures var y, z := Trimmed(Trimmed(x, a, error), b, error), Trimmed(x, a + b, error);
            && y.(sector := 0) == z.(sector := 0)
            && (y == z <==> a % 512 + b % 512 < 512)
  {
    DropTwice(x.vecs, a, b);
    DropIsDrop(x.id, x.vecs, a);
    SectorsAdd(a, b);
  }

  /** Shifting by nine bits step by step. */
  lemma SectorsAdd(a: nat, b: nat)
    ensures a / 512 + b / 512 == (a + b) / 512 <==> a % 512 + b % 512 < 512
  {
  }

  lemma InsideFirst(bios: seq<Bio>, n: nat, error: int)
    requires bios != [] && n < bios[0].size
    ensures Left(bios, n, error) == [Trimmed(bios[0], n, error)] + bios[1..] && Ends(bios, n, error) == []
  {
  }

  lemma PastFirst(bios: seq<Bio>, n: nat, error: int)
    requires bios != [] && n >= bios[0].size
    ensures Left(bios, n, error) == Left(bios[1..], n - bios[0].size, error)
    ensures Ends(bios, n, error) == [Ended(bios[0], error)] + Ends(bios[1..], n - bios[0].size, error)
  {
  }

  lemma SameFirst(y: Bio, z: Bio, rest: seq<Bio>)
    ensures [y] + rest == [z] + rest <==> y == z
    ensures y.(sector := 0) == z.(sector := 0) ==> Unplaced([y] + rest) == Unplaced([z] + rest)
  {
    assert ([y] + rest)[0] == y && ([z] + rest)[0] == z;
  }

  /** Two steps and one, when both stop inside the first bio. */
  lemma BothInside(bios: seq<Bio>, a: nat, b: nat, error: int)
    requires ChainOk(bios) && bios != [] && a + b < bios[0].size
    ensures Ends(bios, a, error) == [] && Ends(Left(bios, a, error), b, error) == [] && Ends(bios, a + b, error) == []
    ensures Unplaced(Left(Left(bios, a, error), b, error)) == Unplaced(Left(bios, a + b, error))
    ensures Left(Left(bios, a, error), b, error) == Left(bios, a + b, error) <==> a % 512 + b % 512 < 512
  {
    var x, rest := bios[0], bios[1..];
    var t := Trimmed(x, a, error);
    InsideFirst(bios, a, error);
    InsideFirst(bios, a + b, error);
    assert ([t] + rest)[1..] == rest;
    InsideFirst([t] + rest, b, error);
    TrimTwice(x, a, b, error);
    SameFirst(Trimmed(t, b, error), Trimmed(x, a + b, error), rest);
  }

  /** Two steps and one, when the second finishes the bio in which the first stops. */
  lemma SecondFinishes(bios: seq<Bio>, a: nat, b: nat, error: int)
    requires bios != [] && a < bios[0].size <= a + b
    ensures Ends(bios, a, error) == [] && Ends(Left(bios, a, error), b, error) == Ends(bios, a + b, error)
    ensures Left(Left(bios, a, error), b, error) == Left(bios, a + b, error)
  {
    var x, rest := bios[0], bios[1..];
    var t := Trimmed(x, a, error);
    InsideFirst(bios, a, error);
    assert ([t] + rest)[1..] == rest && b - t.size == a + b - x.size && Ended(t, error) == Ended(x, error);
    PastFirst([t] + rest, b, error);
    PastFirst(bios, a + b, error);
  }

  /** One more end in front. */
  lemma EndsChain(e: End, x: seq<End>, y: seq<End>, z: seq<End>)
    requires x + y == z
    ensures ([e] + x) + y == [e] + z
  {
    assert ([e] + x) + y == [e] + (x + y);
  }

  /** Completing a bytes and then b ends the bios that completing a + b at once does and
      leaves the same chain up to sector numbers; those agree too if and only if no
      sector is lost between the two steps. */
  lemma {:induction false} TwoStepsAreOne(bios: seq<Bio>, a: nat, b: nat, error: int)
    requires ChainOk(bios)
    ensures Ends(bios, a, error) + Ends(Left(bios, a, error), b, error) == Ends(bios, a + b, error)
    ensures Unplaced(Left(Left(bios, a, error), b, error)) == Unplaced(Left(bios, a + b, error))
    ensures Left(Left(bios, a, error), b, error) == Left(bios, a + b, error) <==> NoSectorLost(bios, a, b)
  {
    if bios == [] {
    } else if a >= bios[0].size {
      var rest, c := bios[1..], a - bios[0].size;
      TwoStepsAreOne(rest, c, b, error);
      PastFirst(bios, a, error);
      PastFirst(bios, a + b, error);
      EndsChain(Ended(bios[0], error), Ends(rest, c, error), Ends(Left(rest, c, error), b, error),
                Ends(rest, c + b, error));
    } else if a + b < bios[0].size {
      BothInside(bios, a, b, error);
    } else {
      SecondFinishes(bios, a, b, error);
    }
  }

  /** No sector is lost where bios and the first step are whole sectors, as on every fs
      request. */
  lemma {:induction false} WholeSectorsLoseNone(bios: seq<Bio>, a: nat, b: nat)
    requires (forall i :: 0 <= i < |bios| ==> bios[i].size % 512 == 0) && a % 512 == 0
    ensures NoSectorLost(bios, a, b)
  {
    if bios != [] && a >= bios[0].size { WholeSectorsLoseNone(bios[1..], a - bios[0].size, b); }
  }

  /** A bio of 300 bytes and one of 1024: completing 512 bytes and then 300 leaves the second
      at sector 8, completing 812 at sector 9. */
  lemma SectorIsLost()
    ensures var bios := [Bio(1, 0, 300, [Vec(1, 0, 300)], true, {}), Bio(2, 8, 1024, [Vec(2, 0, 1024)], true, {})];
            && ChainOk(bios)
            && |Left(Left(bios, 512, 0), 300, 0)| == 1 && Left(Left(bios, 512, 0), 300, 0)[0].sector == 8
            && |Left(bios, 812, 0)| == 1 && Left(bios, 812, 0)[0].sector == 9
  {
    var x, y := Bio(1, 0, 300, [Vec(1, 0, 300)], true, {}), Bio(2, 8, 1024, [Vec(2, 0, 1024)], true, {});
    assert [x, y][1..] == [y];
    assert VecBytes([Vec(1, 0, 300)]) == 300 && VecBytes([Vec(2, 0, 1024)]) == 1024;
    var mid := Left([x, y], 512, 0);
    assert Left([y], 212, 0) == [Trimmed(y, 212, 0)] + [] && mid == [Trimmed(y, 212, 0)];
    assert mid[1..] == [] && mid[0].size == 812;
    assert Left([y], 512, 0) == [Trimmed(y, 512, 0)] + [];
    assert Left(mid, 300, 0) == [Trimmed(mid[0], 300, 0)] && Left([x, y], 812, 0) == [Trimmed(y, 512, 0)];
  }

  // --------------------------------------------------------- failing mixed merges

  /** blk_rq_err_bytes on a mixed merge: the bytes of the leading bios that are at least
      as eager to fail as the request. */
  function ErrBytes(bios: seq<Bio>, ff: set<nat>): nat {
    if bios == [] || !(ff <= bios[0].ff) then 0 else bios[0].size + ErrBytes(bios[1..], ff)
  }

  /** Failing those bytes ends exactly the leading bios that have all the flags `ff`, and
      leaves the others as they were. */
  lemma {:induction false} ErrBytesAreTheEager(bios: seq<Bio>, ff: set<nat>, error: int) returns (k: nat)
    requires ChainOk(bios)
    ensures k <= |bios| && Left(bios, ErrBytes(bios, ff), error) == bios[k..]
    ensures forall i :: 0 <= i < k ==> ff <= bios[i].ff
    ensures k < |bios| ==> !(ff <= bios[k].ff)
  {
    if bios == [] || !(ff <= bios[0].ff) {
      k := 0;
    } else {
      var j := ErrBytesAreTheEager(bios[1..], ff, error);
      k := j + 1;
      assert bios[1..][j..] == bios[k..];
      assert forall i :: 1 <= i < k ==> bios[i] == bios[1..][i - 1];
    }
  }
}
