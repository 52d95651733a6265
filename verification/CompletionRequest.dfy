/** A request whose bios are completed step by step, in place. */
module CompletionRequest {
  import opened Completion

  /** The first k bio_vecs, wholly done, and r bytes of the next. */
  lemma {:induction false} DropPrefix(vecs: seq<Vec>, k: nat, r: nat)
    requires k <= |vecs| && r > 0
    ensures VecBytes(vecs) == VecBytes(vecs[..k]) + VecBytes(vecs[k..])
    ensures DropBytes(vecs, VecBytes(vecs[..k]) + r) == DropBytes(vecs[k..], r)
  {
    if k == 0 {
      assert vecs[0..] == vecs;
    } else {
      DropPrefix(vecs[1..], k - 1, r);
      assert vecs[1..][..k - 1] == vecs[..k][1..];
      assert vecs[1..][k - 1..] == vecs[k..];
    }
  }

  lemma {:induction false} PrefixGrows(vecs: seq<Vec>, k: nat)
    requires k < |vecs|
    ensures VecBytes(vecs[..k + 1]) == VecBytes(vecs[..k]) + vecs[k].len
  {
    if k > 0 {
      PrefixGrows(vecs[1..], k - 1);
      assert vecs[1..][..k] == vecs[..k + 1][1..];
      assert vecs[1..][..k - 1] == vecs[..k][1..];
    } else {
      assert vecs[..1][1..] == [];
      assert vecs[..1] == [vecs[0]];
    }
  }

  /** bv_offset and bv_len of the first bio_vec moved on by r bytes. */
  function Shifted(vecs: seq<Vec>, r: nat): seq<Vec>
    requires vecs != [] && r <= vecs[0].len
  {
    [Vec(vecs[0].page, vecs[0].offset + r, vecs[0].len - r)] + vecs[1..]
  }

  lemma SomeVecLeft(vecs: seq<Vec>, k: nat, n: nat)
    requires k <= |vecs| && VecBytes(vecs[..k]) <= n < VecBytes(vecs)
    ensures k < |vecs| && VecBytes(vecs[..k + 1]) == VecBytes(vecs[..k]) + vecs[k].len
  {
    assert vecs[..|vecs|] == vecs;
    if k < |vecs| { PrefixGrows(vecs, k); }
  }

  /** What is left after n bytes starts r bytes into bio_vec k. */
  predicate Resumes(vecs: seq<Vec>, k: nat, r: nat, n: nat) {
    k < |vecs| && r <= vecs[k].len && DropBytes(vecs, n) == Shifted(vecs[k..], r)
  }

  lemma FirstDropped(vecs: seq<Vec>)
    requires |vecs| > 1 && vecs[0].len > 0
    ensures DropBytes(vecs, vecs[0].len) == Shifted(vecs[1..], 0)
  {
    assert Shifted(vecs[1..], 0) == vecs[1..];
  }

  /** The walk has stopped right behind the non-empty bio_vec k. */
  lemma {:induction false} StoppedBehind(vecs: seq<Vec>, k: nat)
    requires k < |vecs| && vecs[k].len > 0 && VecBytes(vecs[..k + 1]) < VecBytes(vecs)
    ensures Resumes(vecs, k + 1, 0, VecBytes(vecs[..k + 1])) && VecBytes(vecs[..k + 1]) > 0
    decreases k
  {
    SomeVecLeft(vecs, k + 1, VecBytes(vecs[..k + 1]));
    if k == 0 {
      assert vecs[..1] == [vecs[0]] && VecBytes(vecs[..1]) == vecs[0].len;
      FirstDropped(vecs);
    } else {
      assert vecs[..k + 1][1..] == vecs[1..][..k];
      StoppedBehind(vecs[1..], k - 1);
      assert vecs[1..][k..] == vecs[k + 1..];
    }
  }

  /** The walk has stopped r bytes into bio_vec k. */
  lemma StoppedInside(vecs: seq<Vec>, k: nat, r: nat)
    requires k < |vecs| && 0 < r < vecs[k].len
    ensures Resumes(vecs, k, r, VecBytes(vecs[..k]) + r)
  {
    DropPrefix(vecs, k, r);
  }

  /** `ends` have ended, and completing `left` bytes of `rest` does what is to be done. */
  ghost predicate Accounts(bios: seq<Bio>, n: nat, error: int, rest: seq<Bio>, ends: seq<End>, left: nat) {
    && Left(bios, n, error) == Left(rest, left, error)
    && Ends(bios, n, error) == ends + Ends(rest, left, error)
  }

  /** One step over a whole bio. */
  lemma StepBio(bios: seq<Bio>, n: nat, error: int, rest: seq<Bio>, ends: seq<End>, left: nat)
    requires Accounts(bios, n, error, rest, ends, left) && rest != [] && left >= rest[0].size
    ensures Accounts(bios, n, error, rest[1..], ends + [Ended(rest[0], error)], left - rest[0].size)
  {
    PastFirst(rest, left, error);
    var more := Ends(rest[1..], left - rest[0].size, error);
    assert ends + ([Ended(rest[0], error)] + more) == (ends + [Ended(rest[0], error)]) + more;
  }

  /** The walk ends with nothing left or inside the first bio. */
  lemma WalkEnds(bios: seq<Bio>, n: nat, error: int, rest: seq<Bio>, ends: seq<End>, left: nat)
    requires Accounts(bios, n, error, rest, ends, left) && (rest != [] ==> left < rest[0].size)
    ensures ends == Ends(bios, n, error)
  {
    assert ends + [] == ends;
  }

  /** One bio_vec of a bio that is not wholly done; `k` is next_idx, `inBio` is
      bio_nbytes, `nr` is nr_bytes, and `over` what is done of the bio_vec we stop in. */
  method VecStep(bio: Bio, k: nat, inBio: nat, nr: nat) returns (k': nat, inBio': nat, nr': nat, over: nat, stop: bool)
    requires BioOk(bio) && k <= |bio.vecs| && inBio == VecBytes(bio.vecs[..k]) && inBio + nr < bio.size
    requires k > 0 ==> nr > 0
    ensures stop ==> inBio' == inBio + nr && (inBio' > 0 ==> Resumes(bio.vecs, k', over, inBio'))
    ensures inBio <= inBio'
    ensures !stop ==> inBio' + nr' == inBio + nr && nr' > 0
    ensures !stop ==> k < k' <= |bio.vecs| && inBio' == VecBytes(bio.vecs[..k'])
  {
    SomeVecLeft(bio.vecs, k, inBio + nr);
    var nbytes := bio.vecs[k].len;
    if nbytes > nr {
      k', inBio', nr', over, stop := k, inBio + nr, nr, nr, true;
      if over > 0 { StoppedInside(bio.vecs, k, over); }
    } else {
      k', inBio', nr', over := k + 1, inBio + nbytes, nr - nbytes, 0;
      stop := nr' == 0;
      if stop && inBio' > 0 { StoppedBehind(bio.vecs, k); }
    }
  }

  /** The walk of blk_update_request: bios that are wholly done are taken off and ended,
      then whole bio_vecs are counted. */
  method Walk(bios: seq<Bio>, nrBytes: nat, error: int)
    returns (rest: seq<Bio>, ends: seq<End>, k: nat, inBio: nat, over: nat, total: nat)
    requires ChainOk(bios)
    ensures ChainOk(rest) && ends == Ends(bios, nrBytes, error)
    ensures Left(bios, nrBytes, error) == Left(rest, inBio, error)
    ensures rest != [] ==> inBio < rest[0].size && total == nrBytes
    ensures rest != [] && inBio > 0 ==> Resumes(rest[0].vecs, k, over, inBio)
  {
    var nr: nat, stop := nrBytes, false;
    rest, ends, k, inBio, over, total := bios, [], 0, 0, 0, 0;
    while rest != [] && !stop
      invariant ChainOk(rest) && (stop ==> rest != []) && (rest == [] ==> inBio == 0)
      invariant Accounts(bios, nrBytes, error, rest, ends, if stop then inBio else inBio + nr)
      invariant if stop then total == nrBytes && inBio < rest[0].size else total + nr == nrBytes
      invariant rest != [] && !stop ==> k <= |rest[0].vecs| && inBio == VecBytes(rest[0].vecs[..k])
      invariant rest != [] && !stop && k > 0 ==> nr > 0 && inBio + nr < rest[0].size
      invariant stop && inBio > 0 ==> Resumes(rest[0].vecs, k, over, inBio)
      decreases !stop, |rest|, if rest == [] then 0 else |rest[0].vecs| - k
    {
      var bio := rest[0];
      if nr >= bio.size {
        StepBio(bios, nrBytes, error, rest, ends, nr);
        rest := rest[1..];
        ends := ends + [Ended(bio, error)];
        k, inBio, total, nr := 0, 0, total + bio.size, nr - bio.size;
        stop := rest != [] && nr == 0;
      } else {
        var before := inBio;
        k, inBio, nr, over, stop := VecStep(bio, k, inBio, nr);
        total := total + inBio - before;
      }
    }
    WalkEnds(bios, nrBytes, error, rest, ends, if stop then inBio else inBio + nr);
  }

  /** The walk of blk_rq_err_bytes over a mixed merge. */
  method CountErrBytes(bios: seq<Bio>, ff: set<nat>) returns (bytes: nat)
    requires ChainOk(bios) && (bios != [] ==> ff <= bios[0].ff)
    ensures bytes == ErrBytes(bios, ff) && bytes <= ChainBytes(bios) && (bios != [] ==> bytes > 0)
  {
    var rest := bios;
    bytes := 0;
    while rest != [] && ff <= rest[0].ff
      invariant ChainOk(rest) && bytes + ErrBytes(rest, ff) == ErrBytes(bios, ff)
      invariant bytes + ChainBytes(rest) == ChainBytes(bios)
      invariant rest == bios || bytes > 0
      decreases |rest|
    {
      bytes := bytes + rest[0].size;
      rest := rest[1..];
    }
  }

  /** The first bio with the completed part cut off. */
  method Advance(bio: Bio, k: nat, inBio: nat, over: nat, error: int) returns (b: Bio)
    requires inBio < bio.size && (inBio > 0 ==> Resumes(bio.vecs, k, over, inBio))
    ensures b == Trimmed(bio, inBio, error)
  {
    b := bio;
    if inBio > 0 {
      if error != 0 {
        b := b.(uptodate := false);
      }
      b := b.(size := b.size - inBio, sector := b.sector + inBio / 512);
      b := b.(vecs := bio.vecs[k..]);
      var v := b.vecs[0];
      b := b.(vecs := [Vec(v.page, v.offset + over, v.len - over)] + b.vecs[1..]);
    }
  }

  class Request {
    var bios: seq<Bio>
    var dataLen: nat
    var sector: nat
    var ff: set<nat>
    var mixed: bool
    var ended: seq<End>

    /** The bios' sizes add up to __data_len; a mixed merge carries no failfast flag that
        its first bio lacks. */
    ghost predicate Valid()
      reads this
    {
      && ChainOk(bios) && dataLen == ChainBytes(bios)
      && (mixed && bios != [] ==> ff <= bios[0].ff)
    }

    /** blk_update_request for an fs request; ConsumesFirstBytes, EndsInOrder and
        TwoStepsAreOne say what the new chain means. */
    method Update(error: int, nrBytes: nat) returns (more: bool)
      requires Valid()
      modifies this`bios, this`dataLen, this`sector, this`ff, this`ended
      ensures Valid() && more == (bios != [])
      ensures bios == Left(old(bios), nrBytes, error) && ended == old(ended) + Ends(old(bios), nrBytes, error)
      ensures dataLen == if nrBytes <= old(dataLen) then old(dataLen) - nrBytes else 0
      ensures sector == if more then old(sector) + nrBytes / 512 else old(sector)
    {
      if bios == [] {
        return false;
      }
      ConsumesFirstBytes(bios, nrBytes, error);
      var rest, ends, k, inBio, over, total := Walk(bios, nrBytes, error);
      ended := ended + ends;
      if rest == [] {
        bios, dataLen := [], 0;
        return false;
      }
      var b := Advance(rest[0], k, inBio, over, error);
      bios := [b] + rest[1..];
      assert bios == Left(old(bios), nrBytes, error);
      assert nrBytes < ChainBytes(old(bios));
      dataLen := dataLen - total;
      sector := sector + total / 512;
      if mixed {
        ff := b.ff;
      }
      assert dataLen >= b.vecs[0].len; // the request is not botched
      more := true;
    }

    /** blk_rq_err_bytes; its BUG_ON does not fire. */
    method ErrorBytes() returns (bytes: nat)
      requires Valid()
      ensures bytes == if mixed then ErrBytes(bios, ff) else dataLen
      ensures bytes <= dataLen && (dataLen > 0 ==> bytes > 0)
    {
      if !mixed {
        return dataLen;
      }
      bytes := CountErrBytes(bios, ff);
    }

    /** blk_end_request_err, again and again, ends every bio once and in order. */
    method FailAll(error: int)
      requires Valid()
      modifies this`bios, this`dataLen, this`sector, this`ff, this`ended
      ensures bios == [] && dataLen == 0 && EndIds(ended) == EndIds(old(ended)) + Ids(old(bios))
    {
      var more := bios != [];
      while more
        invariant Valid() && more == (bios != [])
        invariant EndIds(ended) + Ids(bios) == EndIds(old(ended)) + Ids(old(bios))
        decreases dataLen
      {
        var bytes := ErrorBytes();
        EndsInOrder(bios, bytes, error);
        ghost var was := ended;
        ghost var ends := Ends(bios, bytes, error);
        more := Update(error, bytes);
        assert EndIds(was + ends) == EndIds(was) + EndIds(ends);
      }
    }
  }
}
