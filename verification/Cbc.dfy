/** Cipher block chaining, crypto/cbc.c: section 6.2 of NIST SP 800-38A computed block by
    block, in place or from one buffer to another, forwards or backwards. */
module Cbc {

  type Bytes = seq<bv8>

  /** A block function with a second block (the IV): how a block is chained to the one
      before it, or taken out of the chain. */
  type Link = (Bytes, Bytes) -> Bytes

  ghost predicate OnBlocks(f: Link, size: nat) {
    size > 0 && forall x: Bytes, iv: Bytes {:trigger f(x, iv)} :: |x| == size && |iv| == size ==> |f(x, iv)| == size
  }

  /** The bytes behind the last whole block. */
  function Rem(size: nat, n: nat): (r: nat)
    requires size > 0
    ensures r <= n && r < size
  {
    if n < size then n else Rem(size, n - size)
  }

  /** is_power_of_2, which crypto_cbc_alloc asks of a block size. */
  predicate IsPowerOf2(n: nat) { n == 1 || (n > 1 && n % 2 == 0 && IsPowerOf2(n / 2)) }

  /** The & of C, bit by bit. */
  function And(a: nat, b: nat): nat {
    if a == 0 || b == 0 then 0 else 2 * And(a / 2, b / 2) + if a % 2 == 1 && b % 2 == 1 then 1 else 0
  }

  lemma {:induction false} RemIs(size: nat, n: nat, times: nat, r: nat)
    requires r < size && n == times * size + r
    ensures Rem(size, n) == r
    decreases times
  {
    if times > 0 {
      assert n == (times - 1) * size + size + r;
      assert (times - 1) * size >= 0;
      RemIs(size, n - size, times - 1, r);
    }
  }

  lemma {:induction false} RemTimes(size: nat, n: nat) returns (times: nat)
    requires size > 0
    ensures n == times * size + Rem(size, n)
    decreases n
  {
    if n < size {
      times := 0;
    } else {
      times := RemTimes(size, n - size);
      assert (times + 1) * size == times * size + size;
      times := times + 1;
    }
  }

  /** For a power of two the mask gives the remainder. */
  lemma {:induction false} MaskIsRem(size: nat, n: nat)
    requires IsPowerOf2(size)
    ensures And(n, size - 1) == Rem(size, n)
    decreases size
  {
    if size == 1 {
      RemIs(1, n, n, 0);
    } else {
      var half := size / 2;
      MaskIsRem(half, n / 2);
      var times := RemTimes(half, n / 2);
      var r := Rem(half, n / 2);
      assert size == 2 * half && n == 2 * (n / 2) + n % 2;
      HalfMask(n, half, r);
      TwiceTimes(times, half);
      RemIs(2 * half, n, times, 2 * r + n % 2);
    }
  }

  lemma TwiceTimes(times: nat, half: nat)
    ensures times * (2 * half) == 2 * (times * half)
  {
  }

  /** The mask of twice a size is that of the size with one more bit. */
  lemma HalfMask(n: nat, half: nat, r: nat)
    requires half > 0 && r == And(n / 2, half - 1)
    ensures And(n, 2 * half - 1) == 2 * r + n % 2
  {
    assert (2 * half - 1) / 2 == half - 1;
    if n > 0 { assert And(n, 2 * half - 1) == 2 * And(n / 2, half - 1) + n % 2; }
  }

  // ------------------------------------------------------------- what CBC computes

  /** Every block is chained to the ciphertext block before it. */
  ghost function Encrypted(f: Link, size: nat, iv: Bytes, data: Bytes): Bytes
    requires OnBlocks(f, size) && |iv| == size
    decreases |data|
  {
    if |data| < size then []
    else
      var c := f(data[..size], iv);
      c + Encrypted(f, size, c, data[size..])
  }

  /** Every block is taken out of the chain with the ciphertext block before it. */
  ghost function Decrypted(g: Link, size: nat, iv: Bytes, data: Bytes): Bytes
    requires OnBlocks(g, size) && |iv| == size
    decreases |data|
  {
    if |data| < size then [] else g(data[..size], iv) + Decrypted(g, size, data[..size], data[size..])
  }

  /** The IV for what comes next: the last ciphertext block. */
  function NextIv(size: nat, iv: Bytes, cipher: Bytes): (r: Bytes)
    requires |iv| == size > 0
    ensures |r| == size
    decreases |cipher|
  {
    if |cipher| < size then iv else NextIv(size, cipher[..size], cipher[size..])
  }

  lemma {:induction false} Lengths(f: Link, size: nat, iv: Bytes, data: Bytes)
    requires OnBlocks(f, size) && |iv| == size
    ensures |Encrypted(f, size, iv, data)| == |data| - Rem(size, |data|)
    ensures |Decrypted(f, size, iv, data)| == |data| - Rem(size, |data|)
    decreases |data|
  {
    if |data| >= size {
      Lengths(f, size, f(data[..size], iv), data[size..]);
      Lengths(f, size, data[..size], data[size..]);
    }
  }

  /** One block at the front. */
  lemma Step(f: Link, g: Link, size: nat, iv: Bytes, x: Bytes, rest: Bytes)
    requires OnBlocks(f, size) && OnBlocks(g, size) && |iv| == size && |x| == size
    ensures Encrypted(f, size, iv, x + rest) == f(x, iv) + Encrypted(f, size, f(x, iv), rest)
    ensures Decrypted(g, size, iv, x + rest) == g(x, iv) + Decrypted(g, size, x, rest)
    ensures NextIv(size, iv, x + rest) == NextIv(size, x, rest)
  {
    assert (x + rest)[..size] == x && (x + rest)[size..] == rest;
  }

  /** g takes out what f has chained. */
  ghost predicate Undoes(g: Link, f: Link, size: nat) {
    forall x: Bytes, iv: Bytes {:trigger f(x, iv)} :: |x| == size && |iv| == size ==> g(f(x, iv), iv) == x
  }

  /** Decryption inverts encryption for any number of blocks. */
  lemma {:induction false} RoundTrip(f: Link, g: Link, size: nat, iv: Bytes, data: Bytes)
    requires OnBlocks(f, size) && OnBlocks(g, size) && Undoes(g, f, size) && |iv| == size && Rem(size, |data|) == 0
    ensures Decrypted(g, size, iv, Encrypted(f, size, iv, data)) == data
    decreases |data|
  {
    if |data| >= size {
      var c := f(data[..size], iv);
      Step(f, g, size, iv, c, Encrypted(f, size, c, data[size..]));
      RoundTrip(f, g, size, c, data[size..]);
      assert data == data[..size] + data[size..];
    }
  }

  lemma Associates(a: Bytes, b: Bytes, c: Bytes)
    ensures (a + b) + c == a + (b + c)
  {
  }

  /** Chunks of whole blocks can be encrypted one after the other. */
  lemma {:induction false} EncryptChunks(f: Link, size: nat, iv: Bytes, a: Bytes, b: Bytes)
    requires OnBlocks(f, size) && |iv| == size && Rem(size, |a|) == 0
    ensures var c := Encrypted(f, size, iv, a);
            Encrypted(f, size, iv, a + b) == c + Encrypted(f, size, NextIv(size, iv, c), b)
    decreases |a|
  {
    if |a| < size {
      assert a + b == b;
    } else {
      var c := f(a[..size], iv);
      var rest := Encrypted(f, size, c, a[size..]);
      assert a[..size] + (a[size..] + b) == a + b;
      Step(f, f, size, iv, a[..size], a[size..] + b);
      Step(f, f, size, iv, c, rest);
      EncryptChunks(f, size, c, a[size..], b);
      Associates(c, rest, Encrypted(f, size, NextIv(size, c, rest), b));
    }
  }

  lemma {:induction false} DecryptChunks(g: Link, size: nat, iv: Bytes, a: Bytes, b: Bytes)
    requires OnBlocks(g, size) && |iv| == size && Rem(size, |a|) == 0
    ensures Decrypted(g, size, iv, a + b) == Decrypted(g, size, iv, a) + Decrypted(g, size, NextIv(size, iv, a), b)
    decreases |a|
  {
    if |a| < size {
      assert a + b == b;
    } else {
      assert a[..size] + (a[size..] + b) == a + b;
      Step(g, g, size, iv, a[..size], a[size..] + b);
      DecryptChunks(g, size, a[..size], a[size..], b);
      Associates(g(a[..size], iv), Decrypted(g, size, a[..size], a[size..]),
                 Decrypted(g, size, NextIv(size, a[..size], a[size..]), b));
    }
  }

  lemma {:induction false} RemWhole(size: nat, n: nat)
    requires size > 0
    ensures Rem(size, n - Rem(size, n)) == 0 && (n >= size ==> n - Rem(size, n) >= size)
  {
    if n >= size { RemWhole(size, n - size); }
  }

  /** Bytes behind the last whole block do not matter. */
  lemma OddBytes(f: Link, size: nat, iv: Bytes, a: Bytes, odd: Bytes)
    requires OnBlocks(f, size) && |iv| == size && Rem(size, |a|) == 0 && |odd| < size
    ensures Encrypted(f, size, iv, a + odd) == Encrypted(f, size, iv, a)
    ensures Decrypted(f, size, iv, a + odd) == Decrypted(f, size, iv, a)
  {
    EncryptChunks(f, size, iv, a, odd);
    DecryptChunks(f, size, iv, a, odd);
  }

  lemma {:induction false} OddIv(size: nat, iv: Bytes, a: Bytes, odd: Bytes)
    requires |iv| == size > 0 && Rem(size, |a|) == 0 && |odd| < size
    ensures NextIv(size, iv, a + odd) == NextIv(size, iv, a)
    decreases |a|
  {
    if |a| < size {
      assert a + odd == odd;
    } else {
      assert (a + odd)[..size] == a[..size] && (a + odd)[size..] == a[size..] + odd;
      OddIv(size, a[..size], a[size..], odd);
    }
  }

  /** The IV goes on from chunk to chunk. */
  lemma {:induction false} IvChunks(size: nat, iv: Bytes, a: Bytes, b: Bytes)
    requires |iv| == size > 0 && Rem(size, |a|) == 0
    ensures NextIv(size, iv, a + b) == NextIv(size, NextIv(size, iv, a), b)
    decreases |a|
  {
    if |a| < size {
      assert a + b == b;
    } else {
      assert (a + b)[..size] == a[..size] && (a + b)[size..] == a[size..] + b;
      IvChunks(size, a[..size], a[size..], b);
    }
  }

  // ------------------------------------------------------------------ with a cipher

  /** crypto_xor, on as many bytes as both have. */
  function Xor(a: Bytes, b: Bytes): (r: Bytes)
    ensures |a| == |b| ==> |r| == |a|
  {
    seq(if |a| <= |b| then |a| else |b|, i requires 0 <= i < |a| && i < |b| => a[i] ^ b[i])
  }

  lemma XorByteTwice(a: bv8, b: bv8)
    ensures (a ^ b) ^ b == a
  {
  }

  lemma XorTwice(a: Bytes, b: Bytes)
    requires |a| == |b|
    ensures Xor(Xor(a, b), b) == a
  {
    forall i | 0 <= i < |a| ensures Xor(Xor(a, b), b)[i] == a[i] { XorByteTwice(a[i], b[i]); }
  }

  /** f is CBC encryption with the cipher e: xor with the IV, then encrypt. */
  ghost predicate Chains(f: Link, e: Bytes -> Bytes, size: nat) {
    forall x: Bytes, iv: Bytes {:trigger f(x, iv)} :: |x| == size && |iv| == size ==> f(x, iv) == e(Xor(x, iv))
  }

  /** g is CBC decryption with the cipher d: decrypt, then xor with the IV. */
  ghost predicate Unchains(g: Link, d: Bytes -> Bytes, size: nat) {
    forall x: Bytes, iv: Bytes {:trigger g(x, iv)} :: |x| == size && |iv| == size ==> g(x, iv) == Xor(d(x), iv)
  }

  /** For every permutation of the blocks the two undo each other. */
  lemma CipherUndoes(f: Link, g: Link, e: Bytes -> Bytes, d: Bytes -> Bytes, size: nat)
    requires OnBlocks(f, size) && Chains(f, e, size) && Unchains(g, d, size)
    requires forall x: Bytes {:trigger e(x)} :: |x| == size ==> d(e(x)) == x
    ensures Undoes(g, f, size)
  {
    forall x: Bytes, iv: Bytes | |x| == size && |iv| == size ensures g(f(x, iv), iv) == x {
      var c := f(x, iv);
      assert g(c, iv) == Xor(d(c), iv);
      XorTwice(x, iv);
    }
  }
}
