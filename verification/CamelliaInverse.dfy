/** Decryption: camellia_do_decrypt runs the table backwards, and section 2.3.3 of RFC 3713
    decrypts by encrypting with the subkeys in reverse order.  Both are the same function,
    the inverse of encryption. */
module CamelliaInverse {
  import opened CamelliaAlgebra

  /** The subkeys in reverse order: kw1 and kw3, kw2 and kw4, the first round and the last,
      the first FL key and the last change places. */
  function Reversed<H>(k: seq<H>, max: nat): (r: seq<H>)
    requires |k| == max + 2 && max >= 2
    ensures |r| == |k|
    ensures forall j :: 0 <= j < |k| ==>
              r[j] == k[if j < 2 then max + j else if j < max then max + 1 - j else j - max]
  {
    seq(|k|, j requires 0 <= j < |k| => k[if j < 2 then max + j else if j < max then max + 1 - j else j - max])
  }

  lemma ReversedTwice<H>(k: seq<H>, max: nat)
    requires |k| == max + 2 && max >= 2
    ensures Reversed(Reversed(k, max), max) == k
  {
  }

  lemma RoundsReversed<H>(g: Algebra<H>, s: seq<H>, max: nat, i: nat, d: (H, H))
    requires |s| == max + 2 && 2 <= i + 2 && i + 8 <= max
    ensures Rounds(g, Reversed(s, max), i, d) == RoundsBack(g, s, max - 8 - i, d)
  {
    var r, b := Reversed(s, max), max - 8 - i;
    assert r[i + 2] == s[b + 7] && r[i + 3] == s[b + 6] && r[i + 4] == s[b + 5];
    assert r[i + 5] == s[b + 4] && r[i + 6] == s[b + 3] && r[i + 7] == s[b + 2];
  }

  lemma LayerReversed<H>(g: Algebra<H>, s: seq<H>, max: nat, i: nat, d: (H, H))
    requires |s| == max + 2 && 2 <= i && i + 2 <= max
    ensures Layer(g, Reversed(s, max), i, d) == LayerBack(g, s, max - i, d)
  {
  }

  /** Decryption is encryption with the table reversed. */
  lemma DecryptIsReversed<H>(g: Algebra<H>, s: seq<H>, max: nat, c: (H, H))
    requires (max == 24 || max == 32) && |s| == max + 2
    ensures Decrypt(g, s, max, c) == Encrypt(g, Reversed(s, max), max, c)
  {
    var r := Reversed(s, max);
    var d0 := (g.xor(c.0, r[0]), c.1);
    RoundsReversed(g, s, max, 0, d0);
    var d1 := Rounds(g, r, 0, d0);
    LayerReversed(g, s, max, 8, d1);
    var d2 := Layer(g, r, 8, d1);
    RoundsReversed(g, s, max, 8, d2);
    var d3 := Rounds(g, r, 8, d2);
    LayerReversed(g, s, max, 16, d3);
    var d4 := Layer(g, r, 16, d3);
    RoundsReversed(g, s, max, 16, d4);
    if max == 32 {
      var d5 := Rounds(g, r, 16, d4);
      LayerReversed(g, s, max, 24, d5);
      RoundsReversed(g, s, max, 24, Layer(g, r, 24, d5));
    }
  }

  /** Encryption undoes decryption too. */
  lemma EncryptUndoesDecrypt<H(!new)>(g: Algebra<H>, s: seq<H>, max: nat, c: (H, H))
    requires Lawful(g) && (max == 24 || max == 32) && |s| == max + 2
    ensures Encrypt(g, s, max, Decrypt(g, s, max, c)) == c
  {
    var r := Reversed(s, max);
    DecryptIsReversed(g, s, max, c);
    DecryptUndoesEncrypt(g, r, max, c);
    DecryptIsReversed(g, r, max, Encrypt(g, r, max, c));
    ReversedTwice(s, max);
  }

  // ------------------------------------------------ the reversed table is prepared

  lemma Swap<H(!new)>(g: Algebra<H>, a: H, b: H)
    requires Group(g)
    ensures g.xor(a, b) == g.xor(b, a)
  {
    assert At(a, b, b);
  }

  lemma InnerReversed<H(!new)>(g: Algebra<H>, k: seq<H>, s: seq<H>, max: nat, i: nat)
    requires Group(g) && |k| == |s| == max + 2 && i + 8 <= max && InnerKeys(g, k, s, i)
    ensures InnerKeys(g, Reversed(k, max), Reversed(s, max), max - 8 - i)
  {
    Swap(g, k[i + 2], k[i + 4]);
    Swap(g, k[i + 3], k[i + 5]);
    Swap(g, k[i + 4], k[i + 6]);
    Swap(g, k[i + 5], k[i + 7]);
  }

  lemma LayersReversed<H(!new)>(g: Algebra<H>, k: seq<H>, s: seq<H>, max: nat, i: nat)
    requires Group(g) && |k| == |s| == max + 2 && 8 <= i && i + 8 <= max && LayerKeys(g, k, s, i)
    ensures LayerKeys(g, Reversed(k, max), Reversed(s, max), max - i)
  {
    Swap(g, k[i - 2], g.linInv(k[i + 2], k[i]));
    Swap(g, g.linInv(k[i - 1], k[i + 1]), k[i + 3]);
  }

  lemma EndsReversed<H(!new)>(g: Algebra<H>, k: seq<H>, s: seq<H>, max: nat)
    requires Group(g) && KeyCount(|k|, max) && |s| == |k| && Prepared(g, k, s, max)
    ensures var k', s' := Reversed(k, max), Reversed(s, max);
            && s'[0] == g.xor(k'[0], k'[2]) && s'[2] == g.xor(k'[1], k'[3])
            && s'[max - 1] == g.xor(k'[max - 2], k'[max + 1]) && s'[max] == g.xor(k'[max], k'[max - 1])
  {
    Swap(g, k[max - 2], k[max + 1]);
    Swap(g, k[1], k[3]);
  }

  lemma BlocksReversed24<H(!new)>(g: Algebra<H>, k: seq<H>, s: seq<H>)
    requires Group(g) && KeyCount(|k|, 24) && |s| == |k| && Prepared(g, k, s, 24)
    ensures var k', s' := Reversed(k, 24), Reversed(s, 24);
            && InnerKeys(g, k', s', 0) && InnerKeys(g, k', s', 8) && InnerKeys(g, k', s', 16)
            && LayerKeys(g, k', s', 8) && LayerKeys(g, k', s', 16)
  {
    InnerReversed(g, k, s, 24, 0);
    InnerReversed(g, k, s, 24, 8);
    InnerReversed(g, k, s, 24, 16);
    LayersReversed(g, k, s, 24, 8);
    LayersReversed(g, k, s, 24, 16);
  }

  lemma BlocksReversed32<H(!new)>(g: Algebra<H>, k: seq<H>, s: seq<H>)
    requires Group(g) && KeyCount(|k|, 32) && |s| == |k| && Prepared(g, k, s, 32)
    ensures var k', s' := Reversed(k, 32), Reversed(s, 32);
            && InnerKeys(g, k', s', 0) && InnerKeys(g, k', s', 8) && InnerKeys(g, k', s', 16)
            && InnerKeys(g, k', s', 24)
            && LayerKeys(g, k', s', 8) && LayerKeys(g, k', s', 16) && LayerKeys(g, k', s', 24)
  {
    InnerReversed(g, k, s, 32, 0);
    InnerReversed(g, k, s, 32, 8);
    InnerReversed(g, k, s, 32, 16);
    InnerReversed(g, k, s, 32, 24);
    LayersReversed(g, k, s, 32, 8);
    LayersReversed(g, k, s, 32, 16);
    LayersReversed(g, k, s, 32, 24);
  }

  /** A table prepared for some subkeys is, reversed, prepared for the reversed subkeys. */
  lemma PreparedReversed<H(!new)>(g: Algebra<H>, k: seq<H>, s: seq<H>, max: nat)
    requires Group(g) && KeyCount(|k|, max) && |s| == |k| && Prepared(g, k, s, max)
    ensures Prepared(g, Reversed(k, max), Reversed(s, max), max)
  {
    EndsReversed(g, k, s, max);
    if max == 24 { BlocksReversed24(g, k, s); } else { BlocksReversed32(g, k, s); }
  }

  /** On a table left by the setup, decryption is the plain cipher with the raw subkeys in
      reverse order, and both undo the plain cipher. */
  lemma SetupThenDecryptIsPlain<H(!new)>(g: Algebra<H>, k: seq<H>, s: seq<H>, max: nat, c: (H, H))
    requires Lawful(g) && KeyCount(|k|, max) && |s| == |k| && SetupTail(g, k, s, max)
    ensures Decrypt(g, s, max, c) == PlainEncrypt(g, Reversed(k, max), max, c)
    ensures PlainEncrypt(g, k, max, Decrypt(g, s, max, c)) == c
  {
    if max == 24 { SetupPrepares24(g, k, s); } else { SetupPrepares32(g, k, s); }
    PreparedReversed(g, k, s, max);
    DecryptIsReversed(g, s, max, c);
    PreparedIsPlain(g, Reversed(k, max), Reversed(s, max), max, c);
    SetupThenEncryptIsPlain(g, k, s, max, Decrypt(g, s, max, c));
    EncryptUndoesDecrypt(g, s, max, c);
  }
}
