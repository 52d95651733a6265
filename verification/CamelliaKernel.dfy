/** camellia_setup_tail, camellia_do_encrypt and camellia_do_decrypt of
    crypto/camellia.c, working in place on arrays of half blocks.  The macros come
    in as functions (their word-level bodies are in CamelliaWords), so what is
    proved here is the order of the steps and the use of the subkeys. */
module CamelliaKernel {
  import opened CamelliaAlgebra

  /** CAMELLIA_ROUNDSM as a function of x, k and y, the step of the last loop of the
      setup, and the value a round key stands for. */
  datatype Macros<!H> = Macros(round: (H, H, H) -> H, unspread: H -> H, injected: H -> H)

  /** A round adds F of its input and the injected key, whatever the key; the setup
      loop prepares the key that gets injected. */
  ghost predicate Implements<H(!new)>(c: Macros<H>, g: Algebra<H>) {
    forall x, k, y {:trigger At(x, k, y)} :: At(x, k, y) ==>
      && c.round(x, k, y) == Round(g, x, c.injected(k), y)
      && c.injected(c.unspread(k)) == k
  }

  /** Entries used by rounds; the others belong to whitening and FL layers. */
  predicate IsRound(i: nat, max: nat) { i < max && i % 8 >= 2 }

  /** What the rounds make of a table, whatever its contents. */
  function Meaning<H>(c: Macros<H>, w: seq<H>, max: nat): (s: seq<H>)
    ensures |s| == |w|
    ensures forall i :: 0 <= i < |w| ==> s[i] == if IsRound(i, max) then c.injected(w[i]) else w[i]
  {
    seq(|w|, i requires 0 <= i < |w| => if IsRound(i, max) then c.injected(w[i]) else w[i])
  }

  ghost function Block<H>(io: array<H>): (H, H)
    requires io.Length == 2
    reads io
  {
    (io[0], io[1])
  }

  // ------------------------------------------------- encryption, decryption

  /** CAMELLIA_ROUNDSM in place: half y takes up half x. */
  method RoundSM<H(!new)>(c: Macros<H>, ghost g: Algebra<H>, io: array<H>, x: nat, y: nat, k: H, ghost s: H)
    requires io.Length == 2 && x < 2 && y < 2 && x != y && Implements(c, g) && s == c.injected(k)
    modifies io
    ensures io[x] == old(io[x]) && io[y] == Round(g, old(io[x]), s, old(io[y]))
  {
    assert At(io[x], k, io[y]);
    io[y] := c.round(io[x], k, io[y]);
  }

  /** `s` is what the six round keys from entry i on stand for. */
  ghost predicate RoundKeys<H(!new)>(c: Macros<H>, w: seq<H>, s: seq<H>, i: nat) {
    && i + 8 <= |w| && |s| == |w|
    && s[i + 2] == c.injected(w[i + 2]) && s[i + 3] == c.injected(w[i + 3]) && s[i + 4] == c.injected(w[i + 4])
    && s[i + 5] == c.injected(w[i + 5]) && s[i + 6] == c.injected(w[i + 6]) && s[i + 7] == c.injected(w[i + 7])
  }

  /** The ROUNDS macro of camellia_do_encrypt. */
  method SixForward<H(!new)>(c: Macros<H>, ghost g: Algebra<H>, w: seq<H>, ghost s: seq<H>, io: array<H>, i: nat)
    requires io.Length == 2 && Implements(c, g) && RoundKeys(c, w, s, i)
    modifies io
    ensures Block(io) == Rounds(g, s, i, old(Block(io)))
  {
    RoundSM(c, g, io, 0, 1, w[i + 2], s[i + 2]);
    RoundSM(c, g, io, 1, 0, w[i + 3], s[i + 3]);
    RoundSM(c, g, io, 0, 1, w[i + 4], s[i + 4]);
    RoundSM(c, g, io, 1, 0, w[i + 5], s[i + 5]);
    RoundSM(c, g, io, 0, 1, w[i + 6], s[i + 6]);
    RoundSM(c, g, io, 1, 0, w[i + 7], s[i + 7]);
  }

  /** The ROUNDS macro of camellia_do_decrypt. */
  method SixBackward<H(!new)>(c: Macros<H>, ghost g: Algebra<H>, w: seq<H>, ghost s: seq<H>, io: array<H>, i: nat)
    requires io.Length == 2 && Implements(c, g) && RoundKeys(c, w, s, i)
    modifies io
    ensures Block(io) == RoundsBack(g, s, i, old(Block(io)))
  {
    RoundSM(c, g, io, 0, 1, w[i + 7], s[i + 7]);
    RoundSM(c, g, io, 1, 0, w[i + 6], s[i + 6]);
    RoundSM(c, g, io, 0, 1, w[i + 5], s[i + 5]);
    RoundSM(c, g, io, 1, 0, w[i + 4], s[i + 4]);
    RoundSM(c, g, io, 0, 1, w[i + 3], s[i + 3]);
    RoundSM(c, g, io, 1, 0, w[i + 2], s[i + 2]);
  }

  lemma MeaningEntries<H(!new)>(c: Macros<H>, w: seq<H>, max: nat)
    requires (max == 24 || max == 32) && max < |w|
    ensures var s := Meaning(c, w, max);
            && RoundKeys(c, w, s, 0) && RoundKeys(c, w, s, 8) && RoundKeys(c, w, s, 16)
            && s[0] == w[0] && s[8] == w[8] && s[9] == w[9] && s[16] == w[16] && s[17] == w[17] && s[max] == w[max]
            && (max == 32 ==> RoundKeys(c, w, s, 24) && s[24] == w[24] && s[25] == w[25])
  {
  }

  /** Whitening, twelve rounds and two FL layers. */
  method EncryptMiddle<H(!new)>(c: Macros<H>, g: Algebra<H>, w: seq<H>, ghost s: seq<H>, io: array<H>)
    requires io.Length == 2 && Implements(c, g) && 24 <= |w| == |s| && RoundKeys(c, w, s, 0) && RoundKeys(c, w, s, 8)
    requires s[0] == w[0] && s[8] == w[8] && s[9] == w[9] && s[16] == w[16] && s[17] == w[17]
    modifies io
    ensures Block(io) == Middle(g, s, old(Block(io)))
  {
    io[0] := g.xor(io[0], w[0]);
    SixForward(c, g, w, s, io, 0);
    io[0], io[1] := g.fl(io[0], w[8]), g.flInv(io[1], w[9]);
    SixForward(c, g, w, s, io, 8);
    io[0], io[1] := g.fl(io[0], w[16]), g.flInv(io[1], w[17]);
  }

  /** camellia_do_encrypt: the caller exchanges the halves of the result. */
  method DoEncrypt<H(!new)>(c: Macros<H>, g: Algebra<H>, subkey: seq<H>, io: array<H>, max: nat)
    requires io.Length == 2 && Implements(c, g) && (max == 24 || max == 32) && max < |subkey|
    modifies io
    ensures (io[1], io[0]) == Encrypt(g, Meaning(c, subkey, max), max, old(Block(io)))
  {
    ghost var s := Meaning(c, subkey, max);
    MeaningEntries(c, subkey, max);
    EncryptMiddle(c, g, subkey, s, io);
    ghost var d := Block(io);
    SixForward(c, g, subkey, s, io, 16);
    if max == 32 {
      io[0], io[1] := g.fl(io[0], subkey[24]), g.flInv(io[1], subkey[25]);
      assert Block(io) == Layer(g, s, 24, Rounds(g, s, 16, d));
      SixForward(c, g, subkey, s, io, 24);
    }
    ghost var e := Block(io);
    io[1] := g.xor(io[1], subkey[max]);
    assert Encrypt(g, s, max, old(Block(io))) == (g.xor(e.1, s[max]), e.0);
  }

  /** The last eighteen rounds of decryption and the two FL layers between them. */
  method DecryptMiddle<H(!new)>(c: Macros<H>, g: Algebra<H>, w: seq<H>, ghost s: seq<H>, io: array<H>)
    requires io.Length == 2 && Implements(c, g) && 24 <= |w| == |s|
    requires RoundKeys(c, w, s, 0) && RoundKeys(c, w, s, 8) && RoundKeys(c, w, s, 16)
    requires s[8] == w[8] && s[9] == w[9] && s[16] == w[16] && s[17] == w[17]
    modifies io
    ensures Block(io) == MiddleBack(g, s, old(Block(io)))
  {
    SixBackward(c, g, w, s, io, 16);
    io[0], io[1] := g.fl(io[0], w[17]), g.flInv(io[1], w[16]);
    SixBackward(c, g, w, s, io, 8);
    io[0], io[1] := g.fl(io[0], w[9]), g.flInv(io[1], w[8]);
    SixBackward(c, g, w, s, io, 0);
  }

  /** What the longer keys do first. */
  method DecryptLong<H(!new)>(c: Macros<H>, g: Algebra<H>, w: seq<H>, ghost s: seq<H>, io: array<H>)
    requires io.Length == 2 && Implements(c, g) && 32 <= |w| == |s| && RoundKeys(c, w, s, 24)
    requires s[24] == w[24] && s[25] == w[25]
    modifies io
    ensures Block(io) == LayerBack(g, s, 24, RoundsBack(g, s, 24, old(Block(io))))
  {
    SixBackward(c, g, w, s, io, 24);
    io[0], io[1] := g.fl(io[0], w[25]), g.flInv(io[1], w[24]);
  }

  /** camellia_do_decrypt: the caller exchanges the halves of the result. */
  method DoDecrypt<H(!new)>(c: Macros<H>, g: Algebra<H>, subkey: seq<H>, io: array<H>, max: nat)
    requires io.Length == 2 && Implements(c, g) && (max == 24 || max == 32) && max < |subkey|
    modifies io
    ensures (io[1], io[0]) == Decrypt(g, Meaning(c, subkey, max), max, old(Block(io)))
  {
    ghost var s := Meaning(c, subkey, max);
    MeaningEntries(c, subkey, max);
    io[0] := g.xor(io[0], subkey[max]);
    if max == 32 {
      DecryptLong(c, g, subkey, s, io);
    }
    DecryptMiddle(c, g, subkey, s, io);
    io[1] := g.xor(io[1], subkey[0]);
  }

  // --------------------------------------------------------------- key setup

  method XorInto<H(!new)>(g: Algebra<H>, sub: array<H>, i: nat, w: H)
    requires i < sub.Length
    modifies sub
    ensures sub[..] == old(sub[..])[i := g.xor(old(sub[i]), w)]
  {
    sub[i] := g.xor(sub[i], w);
  }

  method AbsorbThree<H(!new)>(g: Algebra<H>, sub: array<H>, w: H, a: nat, b: nat, d: nat)
    requires a < sub.Length && b < sub.Length && d < sub.Length && a != b && b != d && a != d
    modifies sub
    ensures sub[..] == Absorb3(g, old(sub[..]), w, a, b, d)
  {
    XorInto(g, sub, a, w);
    XorInto(g, sub, b, w);
    XorInto(g, sub, d, w);
  }

  /** The first part of camellia_setup_tail. */
  method AbsorbSecond<H(!new)>(g: Algebra<H>, sub: array<H>, max: nat)
    requires KeyCount(sub.Length, max)
    modifies sub
    ensures sub[..] == AbsorbKw2(g, old(sub[..]), max)
  {
    AbsorbThree(g, sub, sub[1], 3, 5, 7);
    sub[1] := g.linInv(sub[1], sub[9]);
    AbsorbThree(g, sub, sub[1], 11, 13, 15);
    sub[1] := g.linInv(sub[1], sub[17]);
    AbsorbThree(g, sub, sub[1], 19, 21, 23);
    if max == 24 {
      XorInto(g, sub, 24, sub[1]);
    } else {
      sub[1] := g.linInv(sub[1], sub[25]);
      AbsorbThree(g, sub, sub[1], 27, 29, 31);
      XorInto(g, sub, 32, sub[1]);
    }
  }

  /** The second part: the last whitening key travels backwards. */
  method AbsorbFourth<H(!new)>(g: Algebra<H>, sub: array<H>, max: nat)
    requires KeyCount(sub.Length, max)
    modifies sub
    ensures sub[..] == AbsorbKw4(g, old(sub[..]), max)
  {
    var kw4 := sub[max + 1];
    if max == 32 {
      AbsorbThree(g, sub, kw4, 30, 28, 26);
      kw4 := g.linInv(kw4, sub[24]);
    }
    AbsorbThree(g, sub, kw4, 22, 20, 18);
    kw4 := g.linInv(kw4, sub[16]);
    AbsorbThree(g, sub, kw4, 14, 12, 10);
    kw4 := g.linInv(kw4, sub[8]);
    AbsorbThree(g, sub, kw4, 6, 4, 2);
    XorInto(g, sub, 0, kw4);
  }

  /** The entries a block of the table needs: rounds 2 to 5 of the block at i. */
  method CombineInner<H(!new)>(g: Algebra<H>, sub: seq<H>, subkey: array<H>, i: nat)
    requires i + 8 <= |sub| && i + 8 <= subkey.Length
    modifies subkey
    ensures subkey[..] == old(subkey[..])[i + 3 := g.xor(sub[i + 2], sub[i + 4])]
                          [i + 4 := g.xor(sub[i + 3], sub[i + 5])]
                          [i + 5 := g.xor(sub[i + 4], sub[i + 6])][i + 6 := g.xor(sub[i + 5], sub[i + 7])]
  {
    subkey[i + 3] := g.xor(sub[i + 2], sub[i + 4]);
    subkey[i + 4] := g.xor(sub[i + 3], sub[i + 5]);
    subkey[i + 5] := g.xor(sub[i + 4], sub[i + 6]);
    subkey[i + 6] := g.xor(sub[i + 5], sub[i + 7]);
  }

  /** The entries around the FL layer at i. */
  method CombineLayer<H(!new)>(g: Algebra<H>, sub: seq<H>, subkey: array<H>, i: nat)
    requires 8 <= i && i + 8 <= |sub| && i + 8 <= subkey.Length
    modifies subkey
    ensures subkey[..] == old(subkey[..])[i - 1 := g.xor(sub[i - 2], g.linInv(sub[i + 2], sub[i]))]
                          [i := sub[i]][i + 1 := sub[i + 1]]
                          [i + 2 := g.xor(g.linInv(sub[i - 1], sub[i + 1]), sub[i + 3])]
  {
    var carried := g.linInv(sub[i + 2], sub[i]);
    subkey[i - 1] := g.xor(sub[i - 2], carried);
    subkey[i] := sub[i];
    subkey[i + 1] := sub[i + 1];
    carried := g.linInv(sub[i - 1], sub[i + 1]);
    subkey[i + 2] := g.xor(carried, sub[i + 3]);
  }

  /** The entries up to the first FL layer and the round key behind it. */
  method CombineFirst<H(!new)>(g: Algebra<H>, sub: seq<H>, subkey: array<H>)
    requires 24 <= |sub| && subkey.Length == |sub|
    modifies subkey
    ensures var s := subkey[..];
            s[0] == g.xor(sub[0], sub[2]) && s[2] == sub[3] && InnerKeys(g, sub, s, 0) && LayerKeys(g, sub, s, 8)
  {
    subkey[0] := g.xor(sub[0], sub[2]);
    subkey[2] := sub[3];
    CombineInner(g, sub, subkey, 0);
    CombineLayer(g, sub, subkey, 8);
  }

  /** The entries from there to the third block. */
  method CombineSecond<H(!new)>(g: Algebra<H>, sub: seq<H>, subkey: array<H>)
    requires 24 <= |sub| && subkey.Length == |sub|
    modifies subkey
    ensures subkey[..11] == old(subkey[..11])
    ensures var s := subkey[..]; InnerKeys(g, sub, s, 8) && InnerKeys(g, sub, s, 16) && LayerKeys(g, sub, s, 16)
  {
    CombineInner(g, sub, subkey, 8);
    CombineLayer(g, sub, subkey, 16);
    CombineInner(g, sub, subkey, 16);
  }

  /** The entries both key sizes have in common. */
  method CombineCommon<H(!new)>(g: Algebra<H>, sub: seq<H>, subkey: array<H>)
    requires 24 <= |sub| && subkey.Length == |sub|
    modifies subkey
    ensures var s := subkey[..];
            && s[0] == g.xor(sub[0], sub[2]) && s[2] == sub[3]
            && InnerKeys(g, sub, s, 0) && InnerKeys(g, sub, s, 8) && InnerKeys(g, sub, s, 16)
            && LayerKeys(g, sub, s, 8) && LayerKeys(g, sub, s, 16)
  {
    CombineFirst(g, sub, subkey);
    ghost var w := subkey[..11];
    CombineSecond(g, sub, subkey);
    assert forall i :: 0 <= i < 11 ==> subkey[i] == w[i];
  }

  /** The entries only the longer keys have. */
  method CombineLong<H(!new)>(g: Algebra<H>, sub: seq<H>, subkey: array<H>)
    requires |sub| == 34 && subkey.Length == |sub|
    modifies subkey
    ensures subkey[..23] == old(subkey[..23])
    ensures var s := subkey[..];
            InnerKeys(g, sub, s, 24) && LayerKeys(g, sub, s, 24) && s[31] == sub[30] && s[32] == g.xor(sub[32], sub[31])
  {
    CombineLayer(g, sub, subkey, 24);
    CombineInner(g, sub, subkey, 24);
    subkey[31] := sub[30];
    subkey[32] := g.xor(sub[32], sub[31]);
  }

  /** The third part: neighbouring keys are combined into the table. */
  method Combine<H(!new)>(g: Algebra<H>, sub: seq<H>, subkey: array<H>, max: nat)
    requires KeyCount(|sub|, max) && subkey.Length == |sub|
    modifies subkey
    ensures CombinedTable(g, sub, subkey[..], max)
  {
    CombineCommon(g, sub, subkey);
    ghost var w := subkey[..23];
    if max == 24 {
      subkey[23] := sub[22];
      subkey[24] := g.xor(sub[24], sub[23]);
    } else {
      CombineLong(g, sub, subkey);
    }
    assert forall i :: 0 <= i < 23 ==> subkey[i] == w[i];
  }

  /** The six round keys of one block. */
  method UnspreadBlock<H(!new)>(c: Macros<H>, subkey: array<H>, i: nat)
    requires i + 6 <= subkey.Length
    modifies subkey
    ensures forall k :: 0 <= k < subkey.Length ==>
              subkey[k] == if i <= k < i + 6 then c.unspread(old(subkey[k])) else old(subkey[k])
  {
    subkey[i] := c.unspread(subkey[i]);
    subkey[i + 1] := c.unspread(subkey[i + 1]);
    subkey[i + 2] := c.unspread(subkey[i + 2]);
    subkey[i + 3] := c.unspread(subkey[i + 3]);
    subkey[i + 4] := c.unspread(subkey[i + 4]);
    subkey[i + 5] := c.unspread(subkey[i + 5]);
  }

  /** The last loop: the inverse of the last half of P, on the six round keys of
      every block. */
  method UnspreadRounds<H(!new)>(c: Macros<H>, subkey: array<H>, max: nat)
    requires (max == 24 || max == 32) && max + 2 == subkey.Length
    modifies subkey
    ensures forall k :: 0 <= k < subkey.Length ==>
              subkey[k] == if IsRound(k, max) then c.unspread(old(subkey[k])) else old(subkey[k])
  {
    var i := 2;
    while i < max
      invariant 2 <= i <= max + 2 && i % 8 == 2
      invariant forall k :: 0 <= k < subkey.Length ==>
                  subkey[k] == if IsRound(k, max) && k < i then c.unspread(old(subkey[k])) else old(subkey[k])
    {
      UnspreadBlock(c, subkey, i);
      i := i + 8;
    }
  }

  lemma UnspreadMeans<H(!new)>(c: Macros<H>, g: Algebra<H>, w: seq<H>, s: seq<H>, max: nat)
    requires Implements(c, g) && |w| == |s|
    requires forall k :: 0 <= k < |w| ==> w[k] == if IsRound(k, max) then c.unspread(s[k]) else s[k]
    ensures Meaning(c, w, max) == s
  {
    forall k | 0 <= k < |w| ensures Meaning(c, w, max)[k] == s[k] {
      assert At(s[k], s[k], s[k]);
    }
  }

  /** camellia_setup_tail: what the table means to the rounds. */
  method Setup<H(!new)>(c: Macros<H>, g: Algebra<H>, sub: array<H>, subkey: array<H>, max: nat)
    requires KeyCount(sub.Length, max) && subkey.Length == sub.Length && sub != subkey && Implements(c, g)
    modifies sub, subkey
    ensures SetupTail(g, old(sub[..]), Meaning(c, subkey[..], max), max)
  {
    AbsorbSecond(g, sub, max);
    AbsorbFourth(g, sub, max);
    Combine(g, sub[..], subkey, max);
    ghost var s := subkey[..];
    UnspreadRounds(c, subkey, max);
    UnspreadMeans(c, g, subkey[..], s, max);
  }

  /** camellia_encrypt on a table made by the setup: the plain cipher. */
  method EncryptBlock<H(!new)>(c: Macros<H>, g: Algebra<H>, ghost k: seq<H>, subkey: seq<H>, io: array<H>, max: nat)
    requires io.Length == 2 && Implements(c, g) && Lawful(g) && KeyCount(|k|, max) && |subkey| == |k|
    requires SetupTail(g, k, Meaning(c, subkey, max), max)
    modifies io
    ensures Block(io) == PlainEncrypt(g, k, max, old(Block(io)))
  {
    SetupThenEncryptIsPlain(g, k, Meaning(c, subkey, max), max, Block(io));
    DoEncrypt(c, g, subkey, io, max);
    io[0], io[1] := io[1], io[0];
  }

  /** camellia_decrypt undoes camellia_encrypt, whatever the table. */
  method EncryptThenDecrypt<H(!new)>(c: Macros<H>, g: Algebra<H>, subkey: seq<H>, io: array<H>, max: nat)
    requires io.Length == 2 && Implements(c, g) && Lawful(g) && (max == 24 || max == 32) && max < |subkey|
    modifies io
    ensures Block(io) == old(Block(io))
  {
    DecryptUndoesEncrypt(g, Meaning(c, subkey, max), max, Block(io));
    DoEncrypt(c, g, subkey, io, max);
    io[0], io[1] := io[1], io[0];
    DoDecrypt(c, g, subkey, io, max);
    io[0], io[1] := io[1], io[0];
  }
}
