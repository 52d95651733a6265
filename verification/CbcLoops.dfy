/** The four loops of crypto/cbc.c and their chunked callers. */
module CbcLoops {
  import opened Cbc

  /** Bytes lo to hi of `src` xored into place. */
  method XorRun(dst: array<bv8>, at: nat, src: Bytes, lo: nat, hi: nat)
    requires lo <= hi <= |src| && at + |src| <= dst.Length
    modifies dst
    ensures forall k :: 0 <= k < dst.Length ==>
              dst[k] == if at + lo <= k < at + hi then old(dst[k]) ^ src[k - at] else old(dst[k])
  {
    for i := lo to hi
      invariant forall k :: 0 <= k < dst.Length ==>
                  dst[k] == if at + lo <= k < at + i then old(dst[k]) ^ src[k - at] else old(dst[k])
    {
      dst[at + i] := dst[at + i] ^ src[i];
    }
  }

  /** crypto_xor: words of four bytes, then what is left. */
  method XorInto(dst: array<bv8>, at: nat, src: Bytes)
    requires at + |src| <= dst.Length
    modifies dst
    ensures var was := old(dst[..]); dst[..] == was[..at] + Xor(was[at..at + |src|], src) + was[at + |src|..]
  {
    var i := 0;
    while |src| - i >= 4
      invariant 0 <= i <= |src|
      invariant forall k :: 0 <= k < dst.Length ==>
                  dst[k] == if at <= k < at + i then old(dst[k]) ^ src[k - at] else old(dst[k])
    {
      XorRun(dst, at, src, i, i + 4);
      i := i + 4;
    }
    XorRun(dst, at, src, i, |src|);
    XorPieces(old(dst[..]), dst[..], at, src);
  }

  lemma XorPieces(was: Bytes, now: Bytes, at: nat, src: Bytes)
    requires |was| == |now| && at + |src| <= |was|
    requires forall k :: 0 <= k < |was| ==> now[k] == if at <= k < at + |src| then was[k] ^ src[k - at] else was[k]
    ensures now == was[..at] + Xor(was[at..at + |src|], src) + was[at + |src|..]
  {
    var x := Xor(was[at..at + |src|], src);
    assert forall k :: 0 <= k < |src| ==> x[k] == now[at + k];
  }

  /** memcpy. */
  method CopyInto(dst: array<bv8>, at: nat, src: Bytes)
    requires at + |src| <= dst.Length
    modifies dst
    ensures var was := old(dst[..]); dst[..] == was[..at] + src + was[at + |src|..]
  {
    for i := 0 to |src|
      invariant forall k :: 0 <= k < i ==> dst[at + k] == src[k]
      invariant forall k :: 0 <= k < dst.Length && !(at <= k < at + i) ==> dst[k] == old(dst[k])
    {
      dst[at + i] := src[i];
    }
  }

  // ---------------------------------------------------------------- encryption

  /** The first o bytes are done and `iv` chains to the next block. */
  ghost predicate Encrypting(f: Link, size: nat, iv0: Bytes, src: Bytes, o: nat, iv: Bytes, done: Bytes)
    requires OnBlocks(f, size) && |iv0| == size
  {
    && o <= |src| && |iv| == size && |done| == o
    && done + Encrypted(f, size, iv, src[o..]) == Encrypted(f, size, iv0, src)
    && NextIv(size, iv, Encrypted(f, size, iv, src[o..])) == NextIv(size, iv0, Encrypted(f, size, iv0, src))
  }

  lemma EncryptingStarts(f: Link, size: nat, iv0: Bytes, src: Bytes)
    requires OnBlocks(f, size) && |iv0| == size
    ensures Encrypting(f, size, iv0, src, 0, iv0, [])
  {
    assert src[0..] == src;
  }

  lemma EncryptingStep(f: Link, size: nat, iv0: Bytes, src: Bytes, o: nat, iv: Bytes, done: Bytes)
    requires OnBlocks(f, size) && |iv0| == size && Encrypting(f, size, iv0, src, o, iv, done) && o + size <= |src|
    ensures var c := f(src[o..o + size], iv); |c| == size && Encrypting(f, size, iv0, src, o + size, c, done + c)
  {
    var x, more := src[o..o + size], src[o + size..];
    assert src[o..] == x + more;
    Step(f, f, size, iv, x, more);
    Step(f, f, size, iv, f(x, iv), Encrypted(f, size, f(x, iv), more));
  }

  lemma EncryptingEnds(f: Link, size: nat, iv0: Bytes, src: Bytes, o: nat, iv: Bytes, done: Bytes)
    requires OnBlocks(f, size) && |iv0| == size && Encrypting(f, size, iv0, src, o, iv, done) && |src| - o < size
    ensures done == Encrypted(f, size, iv0, src) && iv == NextIv(size, iv0, Encrypted(f, size, iv0, src))
    ensures |src| - o == Rem(size, |src|)
  {
    Lengths(f, size, iv0, src);
    assert done + [] == done;
  }

  /** The buffer, once `was`, holds what is done and then what it held. */
  ghost predicate EncryptedTo(f: Link, size: nat, iv0: Bytes, src: Bytes, was: Bytes, now: Bytes, o: nat, iv: Bytes) {
    && OnBlocks(f, size) && |iv0| == size && |was| == |src| == |now|
    && exists done :: Encrypting(f, size, iv0, src, o, iv, done) && now == done + was[o..]
  }

  lemma EncryptedToStart(f: Link, size: nat, iv0: Bytes, src: Bytes, was: Bytes)
    requires OnBlocks(f, size) && |iv0| == size && |was| == |src|
    ensures EncryptedTo(f, size, iv0, src, was, was, 0, iv0)
  {
    EncryptingStarts(f, size, iv0, src);
    assert was == [] + was[0..];
  }

  lemma EncryptedToStep(f: Link, size: nat, iv0: Bytes, src: Bytes, was: Bytes, now: Bytes, o: nat, iv: Bytes,
                        now': Bytes)
    requires EncryptedTo(f, size, iv0, src, was, now, o, iv) && o + size <= |src|
    requires |iv| == size && now' == now[..o] + f(src[o..o + size], iv) + now[o + size..]
    ensures EncryptedTo(f, size, iv0, src, was, now', o + size, f(src[o..o + size], iv))
  {
    var done :| Encrypting(f, size, iv0, src, o, iv, done) && now == done + was[o..];
    var c := f(src[o..o + size], iv);
    EncryptingStep(f, size, iv0, src, o, iv, done);
    Replaced(done, was, o, c);
    assert now' == (done + c) + was[o + size..];
  }

  /** What the loops leave: the encryption of the whole blocks, then what the buffer held;
      the number of odd bytes, and the IV for what follows. */
  ghost predicate WholeEncrypted(f: Link, size: nat, iv0: Bytes, src: Bytes, was: Bytes, now: Bytes, left: nat,
                                 iv: Bytes)
  {
    && OnBlocks(f, size) && |iv0| == size && |was| == |src|
    && left == Rem(size, |src|) && now == Encrypted(f, size, iv0, src) + was[|src| - left..]
    && iv == NextIv(size, iv0, Encrypted(f, size, iv0, src))
  }

  lemma EncryptedToEnd(f: Link, size: nat, iv0: Bytes, src: Bytes, was: Bytes, now: Bytes, o: nat, left: nat, iv: Bytes)
    requires EncryptedTo(f, size, iv0, src, was, now, o, iv) && o + left == |src| && left < size
    ensures WholeEncrypted(f, size, iv0, src, was, now, left, iv)
  {
    var done :| Encrypting(f, size, iv0, src, o, iv, done) && now == done + was[o..];
    EncryptingEnds(f, size, iv0, src, o, iv, done);
  }

  lemma EncryptedToIv(f: Link, size: nat, iv0: Bytes, src: Bytes, was: Bytes, now: Bytes, o: nat, iv: Bytes)
    requires EncryptedTo(f, size, iv0, src, was, now, o, iv)
    ensures |iv| == size && o <= |src| && (o + size <= |src| ==> now[o..o + size] == was[o..o + size])
  {
    var done :| Encrypting(f, size, iv0, src, o, iv, done) && now == done + was[o..];
  }

  /** The walk of crypto_cbc_encrypt_segment, one block on. */
  method EncryptTo(e: Bytes -> Bytes, ghost f: Link, size: nat, ghost iv0: Bytes, src: Bytes, dst: array<bv8>,
                   ghost was: Bytes, o: nat, iv: Bytes) returns (c: Bytes)
    requires Chains(f, e, size) && o + size <= |src|
    requires EncryptedTo(f, size, iv0, src, was, dst[..], o, iv)
    modifies dst
    ensures EncryptedTo(f, size, iv0, src, was, dst[..], o + size, c)
  {
    ghost var now := dst[..];
    EncryptedToIv(f, size, iv0, src, was, now, o, iv);
    c := e(Xor(src[o..o + size], iv));
    assert c == f(src[o..o + size], iv);
    CopyInto(dst, o, c);
    EncryptedToStep(f, size, iv0, src, was, now, o, iv, dst[..]);
  }

  /** crypto_cbc_encrypt_segment: from one buffer to another. */
  method EncryptSegment(e: Bytes -> Bytes, ghost f: Link, size: nat, iv0: Bytes, src: Bytes, dst: array<bv8>)
    returns (left: nat, iv: Bytes)
    requires OnBlocks(f, size) && Chains(f, e, size) && |iv0| == size <= |src| == dst.Length
    modifies dst
    ensures WholeEncrypted(f, size, iv0, src, old(dst[..]), dst[..], left, iv)
  {
    ghost var was := dst[..];
    var o := 0;
    left, iv := |src|, iv0;
    EncryptedToStart(f, size, iv0, src, was);
    while left >= size
      invariant o + left == |src| && EncryptedTo(f, size, iv0, src, was, dst[..], o, iv)
      decreases left
    {
      iv := EncryptTo(e, f, size, iv0, src, dst, was, o, iv);
      o, left := o + size, left - size;
    }
    EncryptedToEnd(f, size, iv0, src, was, dst[..], o, left, iv);
  }

  /** A block has been replaced between what is done and what is not. */
  lemma Replaced(done: Bytes, src: Bytes, o: nat, c: Bytes)
    requires |done| == o && o + |c| <= |src|
    ensures var was := done + src[o..];
            was[o..o + |c|] == src[o..o + |c|] && was[..o] + c + was[o + |c|..] == (done + c) + src[o + |c|..]
  {
  }

  /** One block of crypto_cbc_encrypt_inplace. */
  method ChainBlock(e: Bytes -> Bytes, ghost f: Link, size: nat, iv: Bytes, buf: array<bv8>, o: nat) returns (c: Bytes)
    requires OnBlocks(f, size) && Chains(f, e, size) && |iv| == size && o + size <= buf.Length
    modifies buf
    ensures var was := old(buf[..]);
            c == f(was[o..o + size], iv) && |c| == size && buf[..] == was[..o] + c + was[o + size..]
  {
    ghost var was := buf[..];
    XorInto(buf, o, iv);
    Middle(was[..o], Xor(was[o..o + size], iv), was[o + size..]);
    assert buf[o..o + size] == buf[..][o..o + size];
    c := e(buf[o..o + size]);
    assert c == f(was[o..o + size], iv);
    CopyInto(buf, o, c);
  }

  lemma Middle(a: Bytes, b: Bytes, c: Bytes)
    ensures var s := a + b + c; s[..|a|] == a && s[|a|..|a| + |b|] == b && s[|a| + |b|..] == c
  {
  }

  /** The walk of crypto_cbc_encrypt_inplace, one block on. */
  method EncryptNext(e: Bytes -> Bytes, ghost f: Link, size: nat, ghost iv0: Bytes, ghost src: Bytes, buf: array<bv8>,
                     o: nat, iv: Bytes) returns (c: Bytes)
    requires Chains(f, e, size) && o + size <= |src|
    requires EncryptedTo(f, size, iv0, src, src, buf[..], o, iv)
    modifies buf
    ensures EncryptedTo(f, size, iv0, src, src, buf[..], o + size, c)
  {
    ghost var now := buf[..];
    EncryptedToIv(f, size, iv0, src, src, now, o, iv);
    c := ChainBlock(e, f, size, iv, buf, o);
    EncryptedToStep(f, size, iv0, src, src, now, o, iv, buf[..]);
  }

  /** crypto_cbc_encrypt_inplace: each block is overwritten, and is the IV for the next. */
  method EncryptInPlace(e: Bytes -> Bytes, ghost f: Link, size: nat, iv0: Bytes, buf: array<bv8>)
    returns (left: nat, iv: Bytes)
    requires OnBlocks(f, size) && Chains(f, e, size) && |iv0| == size <= buf.Length
    modifies buf
    ensures WholeEncrypted(f, size, iv0, old(buf[..]), old(buf[..]), buf[..], left, iv)
  {
    ghost var src := buf[..];
    var o := 0;
    left, iv := buf.Length, iv0;
    EncryptedToStart(f, size, iv0, src, src);
    while left >= size
      invariant o + left == |src| && EncryptedTo(f, size, iv0, src, src, buf[..], o, iv)
      decreases left
    {
      iv := EncryptNext(e, f, size, iv0, src, buf, o, iv);
      o, left := o + size, left - size;
    }
    EncryptedToEnd(f, size, iv0, src, src, buf[..], o, left, iv);
  }

  // ---------------------------------------------------------------- decryption

  /** The first o bytes are done and `iv` is the block before them. */
  ghost predicate Decrypting(g: Link, size: nat, iv0: Bytes, src: Bytes, o: nat, iv: Bytes, done: Bytes)
    requires OnBlocks(g, size) && |iv0| == size
  {
    && o <= |src| && |iv| == size && |done| == o
    && done + Decrypted(g, size, iv, src[o..]) == Decrypted(g, size, iv0, src)
    && NextIv(size, iv, src[o..]) == NextIv(size, iv0, src)
  }

  lemma DecryptingStarts(g: Link, size: nat, iv0: Bytes, src: Bytes)
    requires OnBlocks(g, size) && |iv0| == size
    ensures Decrypting(g, size, iv0, src, 0, iv0, [])
  {
    assert src[0..] == src;
  }

  lemma DecryptingStep(g: Link, size: nat, iv0: Bytes, src: Bytes, o: nat, iv: Bytes, done: Bytes)
    requires OnBlocks(g, size) && |iv0| == size && Decrypting(g, size, iv0, src, o, iv, done) && o + size <= |src|
    ensures var x := src[o..o + size]; |g(x, iv)| == size && Decrypting(g, size, iv0, src, o + size, x, done + g(x, iv))
  {
    var x, more := src[o..o + size], src[o + size..];
    assert src[o..] == x + more;
    Step(g, g, size, iv, x, more);
  }

  lemma DecryptingEnds(g: Link, size: nat, iv0: Bytes, src: Bytes, o: nat, iv: Bytes, done: Bytes)
    requires OnBlocks(g, size) && |iv0| == size && Decrypting(g, size, iv0, src, o, iv, done) && |src| - o < size
    ensures done == Decrypted(g, size, iv0, src) && iv == NextIv(size, iv0, src) && |src| - o == Rem(size, |src|)
  {
    Lengths(g, size, iv0, src);
    assert done + [] == done;
  }

  /** A block decrypted into its place and xored with the one before it. */
  method Unblock(d: Bytes -> Bytes, ghost g: Link, size: nat, c: Bytes, prev: Bytes, dst: array<bv8>, o: nat)
    requires OnBlocks(g, size) && Unchains(g, d, size) && |d(c)| == size
    requires |c| == size && |prev| == size && o + size <= dst.Length
    modifies dst
    ensures var was := old(dst[..]); dst[..] == was[..o] + g(c, prev) + was[o + size..]
  {
    ghost var was := dst[..];
    CopyInto(dst, o, d(c));
    Middle(was[..o], d(c), was[o + size..]);
    XorInto(dst, o, prev);
    assert g(c, prev) == Xor(d(c), prev);
  }

  /** The buffer, once `was`, holds what is done and then what it held. */
  ghost predicate DecryptedTo(g: Link, size: nat, iv0: Bytes, src: Bytes, was: Bytes, now: Bytes, o: nat, iv: Bytes) {
    && OnBlocks(g, size) && |iv0| == size && |was| == |src| == |now|
    && exists done :: Decrypting(g, size, iv0, src, o, iv, done) && now == done + was[o..]
  }

  lemma DecryptedToStart(g: Link, size: nat, iv0: Bytes, src: Bytes, was: Bytes)
    requires OnBlocks(g, size) && |iv0| == size && |was| == |src|
    ensures DecryptedTo(g, size, iv0, src, was, was, 0, iv0)
  {
    DecryptingStarts(g, size, iv0, src);
    assert was == [] + was[0..];
  }

  lemma DecryptedToStep(g: Link, size: nat, iv0: Bytes, src: Bytes, was: Bytes, now: Bytes, o: nat, iv: Bytes,
                        now': Bytes)
    requires DecryptedTo(g, size, iv0, src, was, now, o, iv) && o + size <= |src| && |iv| == size
    requires now' == now[..o] + g(src[o..o + size], iv) + now[o + size..]
    ensures DecryptedTo(g, size, iv0, src, was, now', o + size, src[o..o + size])
  {
    var done :| Decrypting(g, size, iv0, src, o, iv, done) && now == done + was[o..];
    var p := g(src[o..o + size], iv);
    DecryptingStep(g, size, iv0, src, o, iv, done);
    Replaced(done, was, o, p);
    assert now' == (done + p) + was[o + size..];
  }

  /** What the loops leave. */
  ghost predicate WholeDecrypted(g: Link, size: nat, iv0: Bytes, src: Bytes, was: Bytes, now: Bytes, left: nat,
                                 iv: Bytes)
  {
    && OnBlocks(g, size) && |iv0| == size && |was| == |src|
    && left == Rem(size, |src|) && now == Decrypted(g, size, iv0, src) + was[|src| - left..]
    && iv == NextIv(size, iv0, src)
  }

  lemma DecryptedToEnd(g: Link, size: nat, iv0: Bytes, src: Bytes, was: Bytes, now: Bytes, o: nat, left: nat, iv: Bytes)
    requires DecryptedTo(g, size, iv0, src, was, now, o, iv) && o + left == |src| && left < size
    ensures WholeDecrypted(g, size, iv0, src, was, now, left, iv)
  {
    var done :| Decrypting(g, size, iv0, src, o, iv, done) && now == done + was[o..];
    DecryptingEnds(g, size, iv0, src, o, iv, done);
  }

  lemma DecryptedToIv(g: Link, size: nat, iv0: Bytes, src: Bytes, was: Bytes, now: Bytes, o: nat, iv: Bytes)
    requires DecryptedTo(g, size, iv0, src, was, now, o, iv)
    ensures |iv| == size && o <= |src|
  {
    var done :| Decrypting(g, size, iv0, src, o, iv, done) && now == done + was[o..];
  }

  /** The walk of crypto_cbc_decrypt_segment, one block on. */
  method DecryptTo(d: Bytes -> Bytes, ghost g: Link, size: nat, ghost iv0: Bytes, src: Bytes, dst: array<bv8>,
                   ghost was: Bytes, o: nat, iv: Bytes) returns (next: Bytes)
    requires Unchains(g, d, size) && Keeps(d, size) && o + size <= |src|
    requires DecryptedTo(g, size, iv0, src, was, dst[..], o, iv)
    modifies dst
    ensures DecryptedTo(g, size, iv0, src, was, dst[..], o + size, next)
  {
    ghost var now := dst[..];
    DecryptedToIv(g, size, iv0, src, was, now, o, iv);
    next := src[o..o + size];
    Unblock(d, g, size, next, iv, dst, o);
    DecryptedToStep(g, size, iv0, src, was, now, o, iv, dst[..]);
  }

  /** crypto_cbc_decrypt_segment. */
  method DecryptSegment(d: Bytes -> Bytes, ghost g: Link, size: nat, iv0: Bytes, src: Bytes, dst: array<bv8>)
    returns (left: nat, iv: Bytes)
    requires OnBlocks(g, size) && Unchains(g, d, size) && Keeps(d, size) && |iv0| == size <= |src| == dst.Length
    modifies dst
    ensures WholeDecrypted(g, size, iv0, src, old(dst[..]), dst[..], left, iv)
  {
    ghost var was := dst[..];
    var o := 0;
    left, iv := |src|, iv0;
    DecryptedToStart(g, size, iv0, src, was);
    while left >= size
      invariant o + left == |src| && DecryptedTo(g, size, iv0, src, was, dst[..], o, iv)
      decreases left
    {
      iv := DecryptTo(d, g, size, iv0, src, dst, was, o, iv);
      o, left := o + size, left - size;
    }
    DecryptedToEnd(g, size, iv0, src, was, dst[..], o, left, iv);
  }

  /** The cipher maps blocks to blocks. */
  ghost predicate Keeps(d: Bytes -> Bytes, size: nat) {
    forall x: Bytes {:trigger d(x)} :: |x| == size ==> |d(x)| == size
  }

  /** Behind block o everything up to n has been decrypted, going backwards. */
  ghost predicate Unwound(g: Link, size: nat, src: Bytes, o: nat, n: nat, tail: Bytes)
    requires OnBlocks(g, size)
  {
    o + size <= n <= |src| && Rem(size, o) == 0 && tail == Decrypted(g, size, src[o..o + size], src[o + size..n])
  }

  /** One block further back. */
  lemma UnwindStep(g: Link, size: nat, src: Bytes, o: nat, n: nat, tail: Bytes)
    requires OnBlocks(g, size) && Unwound(g, size, src, o, n, tail) && o >= size
    ensures Unwound(g, size, src, o - size, n, g(src[o..o + size], src[o - size..o]) + tail)
  {
    assert src[o..n] == src[o..o + size] + src[o + size..n];
    Step(g, g, size, src[o - size..o], src[o..o + size], src[o + size..n]);
  }

  lemma UnwindEnds(g: Link, size: nat, iv0: Bytes, src: Bytes, n: nat, tail: Bytes)
    requires OnBlocks(g, size) && |iv0| == size && Unwound(g, size, src, 0, n, tail)
    ensures Decrypted(g, size, iv0, src[..n]) == g(src[..size], iv0) + tail
  {
    assert src[..n] == src[..size] + src[size..n] && src[0..size] == src[..size];
    Step(g, g, size, iv0, src[..size], src[size..n]);
  }

  /** The last whole block is the next IV. */
  lemma {:induction false} LastBlock(size: nat, iv: Bytes, data: Bytes)
    requires |iv| == size > 0 && |data| >= size && Rem(size, |data|) == 0
    ensures NextIv(size, iv, data) == data[|data| - size..] && Rem(size, |data| - size) == 0
    decreases |data|
  {
    if |data| - size >= size {
      LastBlock(size, data[..size], data[size..]);
      assert data[size..][|data| - size - size..] == data[|data| - size..];
    } else {
      assert |data| == size;
      assert data[size..] == [] && data[..size] == data;
    }
  }

  lemma WholeBlocks(g: Link, size: nat, iv0: Bytes, src: Bytes, n: nat)
    requires OnBlocks(g, size) && |iv0| == size && n <= |src| < n + size && Rem(size, n) == 0
    ensures Decrypted(g, size, iv0, src) == Decrypted(g, size, iv0, src[..n])
  {
    assert src == src[..n] + src[n..];
    OddBytes(g, size, iv0, src[..n], src[n..]);
  }

  lemma WholeIv(size: nat, iv0: Bytes, src: Bytes, n: nat)
    requires |iv0| == size > 0 && n <= |src| < n + size && Rem(size, n) == 0
    ensures NextIv(size, iv0, src) == NextIv(size, iv0, src[..n])
  {
    assert src == src[..n] + src[n..];
    OddIv(size, iv0, src[..n], src[n..]);
  }

  lemma LastIv(size: nat, iv0: Bytes, src: Bytes, n: nat)
    requires |iv0| == size > 0 && size <= n <= |src| && Rem(size, n) == 0
    ensures NextIv(size, iv0, src[..n]) == src[n - size..n] && Rem(size, n - size) == 0
  {
    LastBlock(size, iv0, src[..n]);
  }

  /** Where the backward walk starts. */
  lemma UnwindStarts(g: Link, size: nat, src: Bytes, n: nat)
    requires OnBlocks(g, size) && size <= n <= |src| && Rem(size, n - size) == 0
    ensures Unwound(g, size, src, n - size, n, [])
  {
    assert src[n..n] == [];
  }

  /** A block has been replaced before the decrypted tail. */
  lemma ReplacedBack(src: Bytes, o: nat, size: nat, tail: Bytes, n: nat, p: Bytes)
    requires o + size <= n <= |src| && |p| == size
    ensures var was := src[..o + size] + tail + src[n..];
            && was[o..o + size] == src[o..o + size] && (o >= size ==> was[o - size..o] == src[o - size..o])
            && was[..o] + p + was[o + size..] == src[..o] + (p + tail) + src[n..]
  {
  }

  /** The buffer holds ciphertext up to block o and plaintext from there to n. */
  ghost predicate UnwoundTo(g: Link, size: nat, src: Bytes, now: Bytes, o: nat, n: nat) {
    && OnBlocks(g, size) && o + size <= n <= |src| == |now|
    && exists tail :: Unwound(g, size, src, o, n, tail) && now == src[..o + size] + tail + src[n..]
  }

  lemma UnwoundToStart(g: Link, size: nat, src: Bytes, n: nat)
    requires OnBlocks(g, size) && size <= n <= |src| && Rem(size, n - size) == 0
    ensures UnwoundTo(g, size, src, src, n - size, n)
  {
    UnwindStarts(g, size, src, n);
    assert src == src[..n] + [] + src[n..];
  }

  /** The walk of crypto_cbc_decrypt_inplace, one block back. */
  method DecryptPrevious(d: Bytes -> Bytes, ghost g: Link, size: nat, ghost src: Bytes, buf: array<bv8>, o: nat,
                         ghost n: nat)
    requires Unchains(g, d, size) && Keeps(d, size) && size <= o < buf.Length
    requires UnwoundTo(g, size, src, buf[..], o, n)
    modifies buf
    ensures UnwoundTo(g, size, src, buf[..], o - size, n)
  {
    ghost var was := buf[..];
    UnwoundToBlocks(g, size, src, was, o, n);
    assert buf[o..o + size] == was[o..o + size] && buf[o - size..o] == was[o - size..o];
    Unblock(d, g, size, buf[o..o + size], buf[o - size..o], buf, o);
    UnwoundToStep(g, size, src, was, o, n, buf[..]);
  }

  lemma UnwoundToBlocks(g: Link, size: nat, src: Bytes, now: Bytes, o: nat, n: nat)
    requires UnwoundTo(g, size, src, now, o, n)
    ensures now[o..o + size] == src[o..o + size] && (o >= size ==> now[o - size..o] == src[o - size..o])
  {
    var tail :| Unwound(g, size, src, o, n, tail) && now == src[..o + size] + tail + src[n..];
  }

  lemma UnwoundToStep(g: Link, size: nat, src: Bytes, now: Bytes, o: nat, n: nat, now': Bytes)
    requires UnwoundTo(g, size, src, now, o, n) && o >= size
    requires now' == now[..o] + g(src[o..o + size], src[o - size..o]) + now[o + size..]
    ensures UnwoundTo(g, size, src, now', o - size, n)
  {
    var tail :| Unwound(g, size, src, o, n, tail) && now == src[..o + size] + tail + src[n..];
    var p := g(src[o..o + size], src[o - size..o]);
    UnwindStep(g, size, src, o, n, tail);
    ReplacedBack(src, o, size, tail, n, p);
    assert now' == src[..o] + (p + tail) + src[n..];
  }

  lemma UnwoundRem(g: Link, size: nat, src: Bytes, now: Bytes, o: nat, n: nat)
    requires UnwoundTo(g, size, src, now, o, n) && o < size
    ensures o == 0
  {
    var tail :| Unwound(g, size, src, o, n, tail) && now == src[..o + size] + tail + src[n..];
  }

  lemma UnwoundToEnd(g: Link, size: nat, iv0: Bytes, src: Bytes, now: Bytes, n: nat, now': Bytes)
    requires UnwoundTo(g, size, src, now, 0, n) && |iv0| == size
    requires now' == g(src[..size], iv0) + now[size..]
    ensures now' == Decrypted(g, size, iv0, src[..n]) + src[n..]
  {
    var tail :| Unwound(g, size, src, 0, n, tail) && now == src[..0 + size] + tail + src[n..];
    UnwindEnds(g, size, iv0, src, n, tail);
    Middle(src[..size], tail, src[n..]);
    assert now[size..] == tail + src[n..];
  }

  /** The loop of crypto_cbc_decrypt_inplace from the last whole block, at o, to the first. */
  method Unwind(d: Bytes -> Bytes, ghost g: Link, size: nat, iv0: Bytes, buf: array<bv8>, start: nat)
    requires OnBlocks(g, size) && Unchains(g, d, size) && Keeps(d, size) && |iv0| == size
    requires start + size <= buf.Length && Rem(size, start) == 0
    modifies buf
    ensures var n, was := start + size, old(buf[..]); buf[..] == Decrypted(g, size, iv0, was[..n]) + was[n..]
  {
    ghost var src, n := buf[..], start + size;
    UnwoundToStart(g, size, src, n);
    var o: nat := start;
    while o >= size
      invariant o <= start && UnwoundTo(g, size, src, buf[..], o, n)
      decreases o
    {
      DecryptPrevious(d, g, size, src, buf, o, n);
      o := o - size;
    }
    UnwoundRem(g, size, src, buf[..], o, n);
    FirstBlock(d, g, size, iv0, buf, src, n);
  }

  /** nbytes & (bsize - 1). */
  method OddCount(size: nat, n: nat) returns (left: nat)
    requires IsPowerOf2(size)
    ensures left == Rem(size, n)
  {
    MaskIsRem(size, n);
    left := And(n, size - 1);
  }

  /** Where the backward walk starts. */
  lemma LastWhole(size: nat, total: nat, left: nat)
    requires 0 < size <= total && left == Rem(size, total)
    ensures left + size <= total && Rem(size, total - left) == 0 && Rem(size, total - left - size) == 0
  {
    RemWhole(size, total);
    OneLess(size, total - left);
  }

  lemma OneLess(size: nat, n: nat)
    requires 0 < size <= n
    ensures Rem(size, n - size) == Rem(size, n)
  {
  }

  lemma LastBlockIsIv(size: nat, iv0: Bytes, src: Bytes, n: nat, iv: Bytes)
    requires |iv0| == size > 0 && size <= n <= |src| < n + size && Rem(size, n) == 0 && iv == src[n - size..n]
    ensures iv == NextIv(size, iv0, src)
  {
    WholeIv(size, iv0, src, n);
    LastIv(size, iv0, src, n);
  }

  lemma WholeIsAll(g: Link, size: nat, iv0: Bytes, src: Bytes, n: nat, plain: Bytes, now: Bytes)
    requires OnBlocks(g, size) && |iv0| == size && n <= |src| < n + size && Rem(size, n) == 0
    requires plain == Decrypted(g, size, iv0, src[..n]) && now == plain + src[n..]
    ensures now == Decrypted(g, size, iv0, src) + src[n..]
  {
    WholeBlocks(g, size, iv0, src, n);
  }

  lemma WholeDecryptedIs(g: Link, size: nat, iv0: Bytes, src: Bytes, now: Bytes, n: nat, left: nat, iv: Bytes)
    requires OnBlocks(g, size) && |iv0| == size && left == Rem(size, |src|) && n + left == |src|
    requires iv == NextIv(size, iv0, src) && now == Decrypted(g, size, iv0, src) + src[n..]
    ensures WholeDecrypted(g, size, iv0, src, src, now, left, iv)
  {
  }

  /** crypto_cbc_decrypt_inplace: backwards, so that every block's predecessor is still
      ciphertext when it is needed. */
  method DecryptInPlace(d: Bytes -> Bytes, ghost g: Link, size: nat, iv0: Bytes, buf: array<bv8>)
    returns (left: nat, iv: Bytes)
    requires OnBlocks(g, size) && Unchains(g, d, size) && Keeps(d, size) && |iv0| == size <= buf.Length
    requires IsPowerOf2(size)
    modifies buf
    ensures WholeDecrypted(g, size, iv0, old(buf[..]), old(buf[..]), buf[..], left, iv)
  {
    left := OddCount(size, buf.Length);
    LastWhole(size, buf.Length, left);
    iv := UnwindAll(d, g, size, iv0, buf, left, buf.Length - left - size);
  }

  /** From the last whole block, which is the next IV, back to the first. */
  method UnwindAll(d: Bytes -> Bytes, ghost g: Link, size: nat, iv0: Bytes, buf: array<bv8>, ghost left: nat, o: nat)
    returns (iv: Bytes)
    requires OnBlocks(g, size) && Unchains(g, d, size) && Keeps(d, size) && |iv0| == size
    requires o + size + left == buf.Length && left == Rem(size, buf.Length)
    requires Rem(size, o) == 0 && Rem(size, o + size) == 0
    modifies buf
    ensures WholeDecrypted(g, size, iv0, old(buf[..]), old(buf[..]), buf[..], left, iv)
  {
    ghost var src := buf[..];
    iv := buf[o..o + size];
    assert iv == src[o..o + size];
    LastBlockIsIv(size, iv0, src, o + size, iv);
    Unwind(d, g, size, iv0, buf, o);
    WholeIsAll(g, size, iv0, src, o + size, Decrypted(g, size, iv0, src[..o + size]), buf[..]);
    WholeDecryptedIs(g, size, iv0, src, buf[..], o + size, left, iv);
  }

  /** The block at the front, xored with the IV. */
  method FirstBlock(d: Bytes -> Bytes, ghost g: Link, size: nat, iv0: Bytes, buf: array<bv8>, ghost src: Bytes,
                    ghost n: nat)
    requires Unchains(g, d, size) && Keeps(d, size) && |iv0| == size
    requires UnwoundTo(g, size, src, buf[..], 0, n)
    modifies buf
    ensures buf[..] == Decrypted(g, size, iv0, src[..n]) + src[n..]
  {
    ghost var now := buf[..];
    UnwoundToBlocks(g, size, src, now, 0, n);
    assert buf[..size] == now[0..size] == src[..size];
    Unblock(d, g, size, buf[..size], iv0, buf, 0);
    assert now[..0] == [];
    UnwoundToEnd(g, size, iv0, src, now, n, buf[..]);
  }

  // -------------------------------------------------------------------- the callers

  /** One chunk in or out of place. */
  method EncryptPart(e: Bytes -> Bytes, ghost f: Link, size: nat, iv0: Bytes, part: Bytes, inPlace: bool)
    returns (out: Bytes, left: nat, iv: Bytes)
    requires OnBlocks(f, size) && Chains(f, e, size) && |iv0| == size <= |part|
    ensures out == Encrypted(f, size, iv0, part) && left == Rem(size, |part|) && iv == NextIv(size, iv0, out)
  {
    var buf := new bv8[|part|](i requires 0 <= i < |part| => part[i]);
    assert buf[..] == part;
    Lengths(f, size, iv0, part);
    if inPlace {
      left, iv := EncryptInPlace(e, f, size, iv0, buf);
    } else {
      left, iv := EncryptSegment(e, f, size, iv0, part, buf);
    }
    out := buf[..|part| - left];
  }

  method DecryptPart(d: Bytes -> Bytes, ghost g: Link, size: nat, iv0: Bytes, part: Bytes, inPlace: bool)
    returns (out: Bytes, left: nat, iv: Bytes)
    requires OnBlocks(g, size) && Unchains(g, d, size) && Keeps(d, size) && |iv0| == size <= |part|
    requires inPlace ==> IsPowerOf2(size)
    ensures out == Decrypted(g, size, iv0, part) && left == Rem(size, |part|) && iv == NextIv(size, iv0, part)
  {
    var buf := new bv8[|part|](i requires 0 <= i < |part| => part[i]);
    assert buf[..] == part;
    Lengths(g, size, iv0, part);
    if inPlace {
      left, iv := DecryptInPlace(d, g, size, iv0, buf);
    } else {
      left, iv := DecryptSegment(d, g, size, iv0, part, buf);
    }
    out := buf[..|part| - left];
  }

  /** The chunk's whole blocks come first; its odd bytes come again with the next. */
  lemma PartOf(f: Link, size: nat, iv: Bytes, rest: Bytes, n: nat)
    requires OnBlocks(f, size) && |iv| == size && size <= n <= |rest|
    ensures var part, more := rest[..n], rest[n - Rem(size, n)..];
            && |more| < |rest|
            && Encrypted(f, size, iv, rest)
               == Encrypted(f, size, iv, part)
                   + Encrypted(f, size, NextIv(size, iv, Encrypted(f, size, iv, part)), more)
            && Decrypted(f, size, iv, rest)
               == Decrypted(f, size, iv, part) + Decrypted(f, size, NextIv(size, iv, part), more)
  {
    RemWhole(size, n);
    var k := n - Rem(size, n);
    var a, odd, more := rest[..k], rest[k..n], rest[k..];
    assert rest[..n] == a + odd && rest == a + more;
    OddBytes(f, size, iv, a, odd);
    OddIv(size, iv, a, odd);
    EncryptChunks(f, size, iv, a, more);
    DecryptChunks(f, size, iv, a, more);
  }

  /** The IV after the chunk's whole blocks is the one to go on with. */
  lemma PartIv(size: nat, iv: Bytes, rest: Bytes, n: nat)
    requires |iv| == size > 0 && size <= n <= |rest|
    ensures NextIv(size, iv, rest) == NextIv(size, NextIv(size, iv, rest[..n]), rest[n - Rem(size, n)..])
  {
    RemWhole(size, n);
    var k := n - Rem(size, n);
    assert rest[..n] == rest[..k] + rest[k..n] && rest == rest[..k] + rest[k..];
    PiecesIv(size, iv, rest[..k], rest[k..n], rest[k..]);
  }

  lemma PiecesIv(size: nat, iv: Bytes, a: Bytes, odd: Bytes, more: Bytes)
    requires |iv| == size > 0 && Rem(size, |a|) == 0 && |odd| < size
    ensures NextIv(size, iv, a + more) == NextIv(size, NextIv(size, iv, a + odd), more)
  {
    OddIv(size, iv, a, odd);
    IvChunks(size, iv, a, more);
  }

  /** What is left to encrypt and the IV for it, so that the whole and its last IV come
      out. */
  ghost predicate EncryptsOn(f: Link, size: nat, iv: Bytes, rest: Bytes, out: Bytes, next: Bytes, more: Bytes) {
    && OnBlocks(f, size) && |iv| == size && |next| == size
    && Encrypted(f, size, iv, rest) == out + Encrypted(f, size, next, more)
    && NextIv(size, iv, Encrypted(f, size, iv, rest)) == NextIv(size, next, Encrypted(f, size, next, more))
  }

  ghost predicate DecryptsOn(g: Link, size: nat, iv: Bytes, rest: Bytes, out: Bytes, next: Bytes, more: Bytes) {
    && OnBlocks(g, size) && |iv| == size && |next| == size
    && Decrypted(g, size, iv, rest) == out + Decrypted(g, size, next, more)
    && NextIv(size, iv, rest) == NextIv(size, next, more)
  }

  lemma EncryptsPart(f: Link, size: nat, iv: Bytes, rest: Bytes, n: nat, out: Bytes, more: Bytes)
    requires OnBlocks(f, size) && |iv| == size && size <= n <= |rest|
    requires out == Encrypted(f, size, iv, rest[..n]) && more == rest[n - Rem(size, n)..]
    ensures EncryptsOn(f, size, iv, rest, out, NextIv(size, iv, out), more)
  {
    PartEncrypted(f, size, iv, rest, n, out, more);
    WholeOut(f, size, iv, rest[..n]);
    EncryptsJoined(f, size, iv, rest, out, more);
  }

  lemma PartEncrypted(f: Link, size: nat, iv: Bytes, rest: Bytes, n: nat, out: Bytes, more: Bytes)
    requires OnBlocks(f, size) && |iv| == size && size <= n <= |rest|
    requires out == Encrypted(f, size, iv, rest[..n]) && more == rest[n - Rem(size, n)..]
    ensures Encrypted(f, size, iv, rest) == out + Encrypted(f, size, NextIv(size, iv, out), more)
  {
    PartOf(f, size, iv, rest, n);
  }

  lemma EncryptsJoined(f: Link, size: nat, iv: Bytes, rest: Bytes, out: Bytes, more: Bytes)
    requires OnBlocks(f, size) && |iv| == size && Rem(size, |out|) == 0
    requires Encrypted(f, size, iv, rest) == out + Encrypted(f, size, NextIv(size, iv, out), more)
    ensures EncryptsOn(f, size, iv, rest, out, NextIv(size, iv, out), more)
  {
    IvChunks(size, iv, out, Encrypted(f, size, NextIv(size, iv, out), more));
  }

  /** The output is whole blocks. */
  lemma WholeOut(f: Link, size: nat, iv: Bytes, part: Bytes)
    requires OnBlocks(f, size) && |iv| == size
    ensures Rem(size, |Encrypted(f, size, iv, part)|) == 0
  {
    Lengths(f, size, iv, part);
    RemWhole(size, |part|);
  }

  lemma DecryptsPart(g: Link, size: nat, iv: Bytes, rest: Bytes, n: nat, out: Bytes, next: Bytes, more: Bytes)
    requires OnBlocks(g, size) && |iv| == size && size <= n <= |rest|
    requires out == Decrypted(g, size, iv, rest[..n]) && more == rest[n - Rem(size, n)..]
    requires next == NextIv(size, iv, rest[..n])
    ensures DecryptsOn(g, size, iv, rest, out, next, more)
  {
    PartOf(g, size, iv, rest, n);
    PartIv(size, iv, rest, n);
  }

  lemma EncryptsStart(f: Link, size: nat, iv: Bytes, data: Bytes)
    requires OnBlocks(f, size) && |iv| == size
    ensures EncryptsOn(f, size, iv, data, [], iv, data)
  {
    assert [] + Encrypted(f, size, iv, data) == Encrypted(f, size, iv, data);
  }

  lemma EncryptsMore(f: Link, size: nat, iv0: Bytes, data: Bytes, out: Bytes, iv: Bytes, rest: Bytes, c: Bytes,
                     next: Bytes, more: Bytes)
    requires EncryptsOn(f, size, iv0, data, out, iv, rest) && EncryptsOn(f, size, iv, rest, c, next, more)
    ensures EncryptsOn(f, size, iv0, data, out + c, next, more)
  {
    Associates(out, c, Encrypted(f, size, next, more));
  }

  lemma EncryptsEnd(f: Link, size: nat, iv0: Bytes, data: Bytes, out: Bytes, iv: Bytes, rest: Bytes)
    requires EncryptsOn(f, size, iv0, data, out, iv, rest) && |rest| < size
    ensures out == Encrypted(f, size, iv0, data) && iv == NextIv(size, iv0, out)
  {
    assert out + [] == out;
  }

  lemma DecryptsStart(g: Link, size: nat, iv: Bytes, data: Bytes)
    requires OnBlocks(g, size) && |iv| == size
    ensures DecryptsOn(g, size, iv, data, [], iv, data)
  {
    assert [] + Decrypted(g, size, iv, data) == Decrypted(g, size, iv, data);
  }

  lemma DecryptsMore(g: Link, size: nat, iv0: Bytes, data: Bytes, out: Bytes, iv: Bytes, rest: Bytes, p: Bytes,
                     next: Bytes, more: Bytes)
    requires DecryptsOn(g, size, iv0, data, out, iv, rest) && DecryptsOn(g, size, iv, rest, p, next, more)
    ensures DecryptsOn(g, size, iv0, data, out + p, next, more)
  {
    Associates(out, p, Decrypted(g, size, next, more));
  }

  lemma DecryptsEnd(g: Link, size: nat, iv0: Bytes, data: Bytes, out: Bytes, iv: Bytes, rest: Bytes)
    requires DecryptsOn(g, size, iv0, data, out, iv, rest) && |rest| < size
    ensures out == Decrypted(g, size, iv0, data) && iv == NextIv(size, iv0, data)
  {
    assert out + [] == out;
  }

  /** One round of the walk: the whole blocks of the chunk it offers. */
  method EncryptChunk(e: Bytes -> Bytes, ghost f: Link, size: nat, iv: Bytes, rest: Bytes, chunk: nat, inPlace: bool)
    returns (out: Bytes, next: Bytes, more: Bytes)
    requires OnBlocks(f, size) && Chains(f, e, size) && |iv| == size <= |rest|
    ensures |more| < |rest| && EncryptsOn(f, size, iv, rest, out, next, more)
  {
    var n := if size <= chunk <= |rest| then chunk else |rest|;
    RemWhole(size, n);
    var left;
    out, left, next := EncryptPart(e, f, size, iv, rest[..n], inPlace);
    more := rest[n - left..];
    EncryptsPart(f, size, iv, rest, n, out, more);
  }

  method DecryptChunk(d: Bytes -> Bytes, ghost g: Link, size: nat, iv: Bytes, rest: Bytes, chunk: nat, inPlace: bool)
    returns (out: Bytes, next: Bytes, more: Bytes)
    requires OnBlocks(g, size) && Unchains(g, d, size) && Keeps(d, size) && |iv| == size <= |rest|
    requires inPlace ==> IsPowerOf2(size)
    ensures |more| < |rest| && DecryptsOn(g, size, iv, rest, out, next, more)
  {
    var n := if size <= chunk <= |rest| then chunk else |rest|;
    RemWhole(size, n);
    var left;
    out, left, next := DecryptPart(d, g, size, iv, rest[..n], inPlace);
    more := rest[n - left..];
    DecryptsPart(g, size, iv, rest, n, out, next, more);
  }

  /** crypto_cbc_encrypt: whatever chunks the walk offers, in place or not, the result is
      the encryption of the whole, and desc->info is left with the IV for what follows. */
  method Encrypt(e: Bytes -> Bytes, ghost f: Link, size: nat, iv0: Bytes, data: Bytes,
                 chunk: nat -> nat, inPlace: nat -> bool) returns (out: Bytes, iv: Bytes)
    requires OnBlocks(f, size) && Chains(f, e, size) && |iv0| == size
    ensures out == Encrypted(f, size, iv0, data) && iv == NextIv(size, iv0, out)
  {
    var rest := data;
    out, iv := [], iv0;
    EncryptsStart(f, size, iv0, data);
    while |rest| >= size
      invariant EncryptsOn(f, size, iv0, data, out, iv, rest)
      decreases |rest|
    {
      var c, next, more := EncryptChunk(e, f, size, iv, rest, chunk(|rest|), inPlace(|rest|));
      EncryptsMore(f, size, iv0, data, out, iv, rest, c, next, more);
      out, iv, rest := out + c, next, more;
    }
    EncryptsEnd(f, size, iv0, data, out, iv, rest);
  }

  /** crypto_cbc_decrypt, for the block sizes crypto_cbc_alloc admits. */
  method Decrypt(d: Bytes -> Bytes, ghost g: Link, size: nat, iv0: Bytes, data: Bytes,
                 chunk: nat -> nat, inPlace: nat -> bool) returns (out: Bytes, iv: Bytes)
    requires OnBlocks(g, size) && Unchains(g, d, size) && Keeps(d, size) && |iv0| == size && IsPowerOf2(size)
    ensures out == Decrypted(g, size, iv0, data) && iv == NextIv(size, iv0, data)
  {
    var rest := data;
    out, iv := [], iv0;
    DecryptsStart(g, size, iv0, data);
    while |rest| >= size
      invariant DecryptsOn(g, size, iv0, data, out, iv, rest)
      decreases |rest|
    {
      var p, next, more := DecryptChunk(d, g, size, iv, rest, chunk(|rest|), inPlace(|rest|));
      DecryptsMore(g, size, iv0, data, out, iv, rest, p, next, more);
      out, iv, rest := out + p, next, more;
    }
    DecryptsEnd(g, size, iv0, data, out, iv, rest);
  }
}
