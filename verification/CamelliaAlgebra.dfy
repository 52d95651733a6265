/** Camellia over an arbitrary half-block type: the plain cipher of section 2.3 of
    RFC 3713, the rearranged subkeys of camellia_setup_tail, and the proof that
    the rearrangement computes the same function.  Nothing here depends on what
    the S-boxes or the FL layers compute, only on the laws in `Lawful`. */
module CamelliaAlgebra {

  /** `f` is the F-function of an already keyed input.  `lin` and `linInv` are FL
      and FL^-1 without their constant part. */
  datatype Algebra<!H> = Algebra(xor: (H, H) -> H, f: H -> H,
                                 fl: (H, H) -> H, flInv: (H, H) -> H,
                                 lin: (H, H) -> H, linInv: (H, H) -> H)

  /** Names the values a law is used at. */
  ghost predicate At<H>(a: H, b: H, c: H) { true }

  ghost predicate Group<H(!new)>(g: Algebra<H>) {
    forall a, b, c {:trigger At(a, b, c)} :: At(a, b, c) ==>
      && g.xor(a, b) == g.xor(b, a)
      && g.xor(g.xor(a, b), c) == g.xor(a, g.xor(b, c))
      && g.xor(g.xor(a, b), b) == a
  }

  /** FL and FL^-1 are affine with the given linear parts. */
  ghost predicate Affine<H(!new)>(g: Algebra<H>) {
    forall a, b, k {:trigger At(a, b, k)} :: At(a, b, k) ==>
      && g.fl(g.xor(a, b), k) == g.xor(g.fl(a, k), g.lin(b, k))
      && g.flInv(g.xor(a, b), k) == g.xor(g.flInv(a, k), g.linInv(b, k))
      && g.linInv(g.xor(a, b), k) == g.xor(g.linInv(a, k), g.linInv(b, k))
      && g.lin(g.linInv(a, k), k) == a
      && g.flInv(g.fl(a, k), k) == a && g.fl(g.flInv(a, k), k) == a
  }

  ghost predicate Lawful<H(!new)>(g: Algebra<H>) { Group(g) && Affine(g) }

  // ------------------------------------------------------------- plain cipher

  /** One half-round of the plain cipher: the key is added before F. */
  function Plain<H>(g: Algebra<H>, x: H, k: H, y: H): H { g.xor(y, g.f(g.xor(x, k))) }

  /** Six rounds with the raw keys k[i+2] .. k[i+7]. */
  function PlainRounds<H>(g: Algebra<H>, k: seq<H>, i: nat, d: (H, H)): (H, H)
    requires i + 7 < |k|
  {
    var a1 := Plain(g, d.0, k[i + 2], d.1);
    var a2 := Plain(g, a1, k[i + 3], d.0);
    var a3 := Plain(g, a2, k[i + 4], a1);
    var a4 := Plain(g, a3, k[i + 5], a2);
    var a5 := Plain(g, a4, k[i + 6], a3);
    (Plain(g, a5, k[i + 7], a4), a5)
  }

  function Layer<H>(g: Algebra<H>, k: seq<H>, i: nat, d: (H, H)): (H, H)
    requires i + 1 < |k|
  {
    (g.fl(d.0, k[i]), g.flInv(d.1, k[i + 1]))
  }

  predicate KeyCount(n: nat, max: nat) { (max == 24 && n == 26) || (max == 32 && n == 34) }

  /** Twelve rounds and two layers, which both key sizes have in common. */
  function PlainMiddle<H>(g: Algebra<H>, k: seq<H>, m: (H, H)): (H, H)
    requires 24 <= |k|
  {
    var d0 := (g.xor(m.0, k[0]), g.xor(m.1, k[1]));
    var d1 := Layer(g, k, 8, PlainRounds(g, k, 0, d0));
    Layer(g, k, 16, PlainRounds(g, k, 8, d1))
  }

  /** Sections 2.3.1 and 2.3.2 of RFC 3713: kw1, kw2 are k[0], k[1]; kw3, kw4 are
      k[max], k[max+1]; the halves of the result are exchanged. */
  function PlainEncrypt<H>(g: Algebra<H>, k: seq<H>, max: nat, m: (H, H)): (H, H)
    requires KeyCount(|k|, max)
  {
    var d := PlainMiddle(g, k, m);
    var e := PlainRounds(g, k, 16, d);
    var e := if max == 24 then e else PlainRounds(g, k, 24, Layer(g, k, 24, e));
    (g.xor(e.1, k[max]), g.xor(e.0, k[max + 1]))
  }

  // --------------------------------------------------------- rearranged cipher

  /** CAMELLIA_ROUNDSM as it acts once its key is in place: the key comes last. */
  function Round<H>(g: Algebra<H>, x: H, s: H, y: H): H { g.xor(y, g.xor(g.f(x), s)) }

  function Rounds<H>(g: Algebra<H>, s: seq<H>, i: nat, d: (H, H)): (H, H)
    requires i + 7 < |s|
  {
    var a1 := Round(g, d.0, s[i + 2], d.1);
    var a2 := Round(g, a1, s[i + 3], d.0);
    var a3 := Round(g, a2, s[i + 4], a1);
    var a4 := Round(g, a3, s[i + 5], a2);
    var a5 := Round(g, a4, s[i + 6], a3);
    (Round(g, a5, s[i + 7], a4), a5)
  }

  function Middle<H>(g: Algebra<H>, s: seq<H>, m: (H, H)): (H, H)
    requires 24 <= |s|
  {
    var d1 := Layer(g, s, 8, Rounds(g, s, 0, (g.xor(m.0, s[0]), m.1)));
    Layer(g, s, 16, Rounds(g, s, 8, d1))
  }

  /** camellia_do_encrypt, with the exchange of halves its caller makes. */
  function Encrypt<H>(g: Algebra<H>, s: seq<H>, max: nat, m: (H, H)): (H, H)
    requires (max == 24 || max == 32) && max < |s|
  {
    var d := Middle(g, s, m);
    var e := Rounds(g, s, 16, d);
    var e := if max == 24 then e else Rounds(g, s, 24, Layer(g, s, 24, e));
    (g.xor(e.1, s[max]), e.0)
  }

  /** camellia_do_decrypt's rounds run the same keys from the last to the first. */
  function RoundsBack<H>(g: Algebra<H>, s: seq<H>, i: nat, d: (H, H)): (H, H)
    requires i + 7 < |s|
  {
    var a1 := Round(g, d.0, s[i + 7], d.1);
    var a2 := Round(g, a1, s[i + 6], d.0);
    var a3 := Round(g, a2, s[i + 5], a1);
    var a4 := Round(g, a3, s[i + 4], a2);
    var a5 := Round(g, a4, s[i + 3], a3);
    (Round(g, a5, s[i + 2], a4), a5)
  }

  function LayerBack<H>(g: Algebra<H>, s: seq<H>, i: nat, d: (H, H)): (H, H)
    requires i + 1 < |s|
  {
    (g.fl(d.0, s[i + 1]), g.flInv(d.1, s[i]))
  }

  function MiddleBack<H>(g: Algebra<H>, s: seq<H>, d: (H, H)): (H, H)
    requires 24 <= |s|
  {
    var d2 := LayerBack(g, s, 16, RoundsBack(g, s, 16, d));
    RoundsBack(g, s, 0, LayerBack(g, s, 8, RoundsBack(g, s, 8, d2)))
  }

  /** camellia_do_decrypt, with the exchange of halves its caller makes. */
  function Decrypt<H>(g: Algebra<H>, s: seq<H>, max: nat, c: (H, H)): (H, H)
    requires (max == 24 || max == 32) && max < |s|
  {
    var d0 := (g.xor(c.0, s[max]), c.1);
    var d1 := if max == 24 then d0 else LayerBack(g, s, 24, RoundsBack(g, s, 24, d0));
    var d4 := MiddleBack(g, s, d1);
    (g.xor(d4.1, s[0]), d4.0)
  }

  // ------------------------------------------------- what the subkeys must be

  /** Subkeys of the rounds inside a block of six. */
  ghost predicate InnerKeys<H(!new)>(g: Algebra<H>, k: seq<H>, s: seq<H>, i: nat)
    requires i + 7 < |k| && i + 7 < |s|
  {
    && s[i + 3] == g.xor(k[i + 2], k[i + 4]) && s[i + 4] == g.xor(k[i + 3], k[i + 5])
    && s[i + 5] == g.xor(k[i + 4], k[i + 6]) && s[i + 6] == g.xor(k[i + 5], k[i + 7])
  }

  /** Subkeys around the FL layer at i. */
  ghost predicate LayerKeys<H(!new)>(g: Algebra<H>, k: seq<H>, s: seq<H>, i: nat)
    requires 8 <= i && i + 7 < |k| && i + 7 < |s|
  {
    && s[i - 1] == g.xor(k[i - 2], g.linInv(k[i + 2], k[i]))
    && s[i] == k[i] && s[i + 1] == k[i + 1]
    && s[i + 2] == g.xor(g.linInv(k[i - 1], k[i + 1]), k[i + 3])
  }

  /** The table camellia_setup_tail leaves, every absorbed whitening key cancelled. */
  ghost predicate Prepared<H(!new)>(g: Algebra<H>, k: seq<H>, s: seq<H>, max: nat)
    requires KeyCount(|k|, max) && |s| == |k|
  {
    && s[0] == g.xor(k[0], k[2]) && s[2] == g.xor(k[1], k[3])
    && InnerKeys(g, k, s, 0) && InnerKeys(g, k, s, 8) && InnerKeys(g, k, s, 16)
    && LayerKeys(g, k, s, 8) && LayerKeys(g, k, s, 16)
    && (max == 32 ==> InnerKeys(g, k, s, 24) && LayerKeys(g, k, s, 24))
    && s[max - 1] == g.xor(k[max - 2], k[max + 1]) && s[max] == g.xor(k[max], k[max - 1])
  }

  // ------------------------------------------------------------- equivalence

  /** The state differs from the plain one by the raw keys of the next two rounds. */
  lemma Cancel<H(!new)>(g: Algebra<H>, d: H, k: H, f: H, k': H)
    requires Group(g)
    ensures g.xor(g.xor(d, k), g.xor(f, g.xor(k, k'))) == g.xor(g.xor(d, f), k')
  {
    var u := g.xor(f, g.xor(k, k'));
    assert At(d, k, u) && At(k, f, g.xor(k, k')) && At(f, k, g.xor(k, k')) && At(k, k', k) && At(k', k, k);
    assert g.xor(k, u) == g.xor(f, k') by {
      calc {
        g.xor(k, u);
        g.xor(g.xor(k, f), g.xor(k, k'));
        g.xor(g.xor(f, k), g.xor(k, k'));
        g.xor(f, g.xor(k, g.xor(k, k')));
      }
      assert At(k, k, k') && At(g.xor(k, k'), k, k);
      assert g.xor(k, g.xor(k, k')) == g.xor(g.xor(k', k), k);
    }
    assert At(d, f, k');
  }

  /** One round keeps the relation: y was off by `c`, and is off by k' afterwards. */
  lemma OneRound<H(!new)>(g: Algebra<H>, x: H, d1: H, k: H, y: H, d2: H, c: H, s: H, k': H)
    requires Group(g) && x == g.xor(d1, k) && y == g.xor(d2, c) && s == g.xor(c, k')
    ensures Round(g, x, s, y) == g.xor(Plain(g, d1, k, d2), k')
  {
    Cancel(g, d2, c, g.f(x), k');
  }

  lemma SixRounds<H(!new)>(g: Algebra<H>, k: seq<H>, s: seq<H>, i: nat, d: (H, H), d': (H, H), c: H, e: H)
    requires Group(g) && i + 7 < |k| && i + 7 < |s| && InnerKeys(g, k, s, i)
    requires d'.0 == g.xor(d.0, k[i + 2]) && d'.1 == g.xor(d.1, c)
    requires s[i + 2] == g.xor(c, k[i + 3]) && s[i + 7] == g.xor(k[i + 6], e)
    ensures Rounds(g, s, i, d') == (g.xor(PlainRounds(g, k, i, d).0, e), g.xor(PlainRounds(g, k, i, d).1, k[i + 7]))
  {
    var p1 := Plain(g, d.0, k[i + 2], d.1);
    var a1 := Round(g, d'.0, s[i + 2], d'.1);
    OneRound(g, d'.0, d.0, k[i + 2], d'.1, d.1, c, s[i + 2], k[i + 3]);
    var p2 := Plain(g, p1, k[i + 3], d.0);
    var a2 := Round(g, a1, s[i + 3], d'.0);
    OneRound(g, a1, p1, k[i + 3], d'.0, d.0, k[i + 2], s[i + 3], k[i + 4]);
    var p3 := Plain(g, p2, k[i + 4], p1);
    var a3 := Round(g, a2, s[i + 4], a1);
    OneRound(g, a2, p2, k[i + 4], a1, p1, k[i + 3], s[i + 4], k[i + 5]);
    var p4 := Plain(g, p3, k[i + 5], p2);
    var a4 := Round(g, a3, s[i + 5], a2);
    OneRound(g, a3, p3, k[i + 5], a2, p2, k[i + 4], s[i + 5], k[i + 6]);
    var p5 := Plain(g, p4, k[i + 6], p3);
    var a5 := Round(g, a4, s[i + 6], a3);
    OneRound(g, a4, p4, k[i + 6], a3, p3, k[i + 5], s[i + 6], k[i + 7]);
    OneRound(g, a5, p5, k[i + 7], a4, p4, k[i + 6], s[i + 7], e);
  }

  /** Through a FL layer: the key carried on the left becomes the next round's key. */
  lemma ThroughLayer<H(!new)>(g: Algebra<H>, k: seq<H>, s: seq<H>, i: nat, d: (H, H), d': (H, H))
    requires Lawful(g) && 8 <= i && i + 7 < |k| && i + 7 < |s| && LayerKeys(g, k, s, i)
    requires d' == (g.xor(d.0, g.linInv(k[i + 2], k[i])), g.xor(d.1, k[i - 1]))
    ensures Layer(g, s, i, d').0 == g.xor(Layer(g, k, i, d).0, k[i + 2])
    ensures Layer(g, s, i, d').1 == g.xor(Layer(g, k, i, d).1, g.linInv(k[i - 1], k[i + 1]))
  {
    assert At(d.0, g.linInv(k[i + 2], k[i]), k[i]) && At(k[i + 2], k[i + 2], k[i]);
    assert At(d.1, k[i - 1], k[i + 1]);
  }

  /** Six rounds and the layer behind them: the relation of one block is handed on
      to the next. */
  lemma BlockAndLayer<H(!new)>(g: Algebra<H>, k: seq<H>, s: seq<H>, i: nat, d: (H, H), d': (H, H), c: H)
    requires Lawful(g) && i + 15 < |k| && |s| == |k| && InnerKeys(g, k, s, i) && LayerKeys(g, k, s, i + 8)
    requires d' == (g.xor(d.0, k[i + 2]), g.xor(d.1, c)) && s[i + 2] == g.xor(c, k[i + 3])
    ensures var e := Layer(g, k, i + 8, PlainRounds(g, k, i, d));
            Layer(g, s, i + 8, Rounds(g, s, i, d')) == (g.xor(e.0, k[i + 10]), g.xor(e.1, g.linInv(k[i + 7], k[i + 9])))
  {
    SixRounds(g, k, s, i, d, d', c, g.linInv(k[i + 10], k[i + 8]));
    ThroughLayer(g, k, s, i + 8, PlainRounds(g, k, i, d), Rounds(g, s, i, d'));
  }

  /** The last six rounds and the whitening. */
  lemma LastBlock<H(!new)>(g: Algebra<H>, k: seq<H>, s: seq<H>, max: nat, d: (H, H), d': (H, H), c: H)
    requires Group(g) && KeyCount(|k|, max) && |s| == |k| && InnerKeys(g, k, s, max - 8)
    requires s[max - 1] == g.xor(k[max - 2], k[max + 1]) && s[max] == g.xor(k[max], k[max - 1])
    requires d' == (g.xor(d.0, k[max - 6]), g.xor(d.1, c)) && s[max - 6] == g.xor(c, k[max - 5])
    ensures var e, e' := PlainRounds(g, k, max - 8, d), Rounds(g, s, max - 8, d');
            g.xor(e'.1, s[max]) == g.xor(e.1, k[max]) && e'.0 == g.xor(e.0, k[max + 1])
  {
    SixRounds(g, k, s, max - 8, d, d', c, k[max + 1]);
    LastWhitening(g, PlainRounds(g, k, max - 8, d).1, k[max - 1], k[max]);
  }

  lemma MiddleIsPlain<H(!new)>(g: Algebra<H>, k: seq<H>, s: seq<H>, m: (H, H))
    requires Lawful(g) && 24 <= |k| == |s|
    requires s[0] == g.xor(k[0], k[2]) && s[2] == g.xor(k[1], k[3])
    requires InnerKeys(g, k, s, 0) && InnerKeys(g, k, s, 8) && LayerKeys(g, k, s, 8) && LayerKeys(g, k, s, 16)
    ensures var d := PlainMiddle(g, k, m);
            Middle(g, s, m) == (g.xor(d.0, k[18]), g.xor(d.1, g.linInv(k[15], k[17])))
  {
    var p0 := (g.xor(m.0, k[0]), g.xor(m.1, k[1]));
    var d0 := (g.xor(m.0, s[0]), m.1);
    assert At(m.0, k[0], k[2]) && At(m.1, k[1], k[1]);
    BlockAndLayer(g, k, s, 0, p0, d0, k[1]);
    var p1, d1 := Layer(g, k, 8, PlainRounds(g, k, 0, p0)), Layer(g, s, 8, Rounds(g, s, 0, d0));
    BlockAndLayer(g, k, s, 8, p1, d1, g.linInv(k[7], k[9]));
  }

  lemma PreparedIsPlain24<H(!new)>(g: Algebra<H>, k: seq<H>, s: seq<H>, m: (H, H))
    requires Lawful(g) && KeyCount(|k|, 24) && |s| == |k| && Prepared(g, k, s, 24)
    ensures Encrypt(g, s, 24, m) == PlainEncrypt(g, k, 24, m)
  {
    MiddleIsPlain(g, k, s, m);
    LastBlock(g, k, s, 24, PlainMiddle(g, k, m), Middle(g, s, m), g.linInv(k[15], k[17]));
  }

  lemma ThirdLayer<H(!new)>(g: Algebra<H>, k: seq<H>, s: seq<H>, m: (H, H))
    requires Lawful(g) && KeyCount(|k|, 32) && |s| == |k| && Prepared(g, k, s, 32)
    ensures var d := Layer(g, k, 24, PlainRounds(g, k, 16, PlainMiddle(g, k, m)));
            Layer(g, s, 24, Rounds(g, s, 16, Middle(g, s, m)))
            == (g.xor(d.0, k[26]), g.xor(d.1, g.linInv(k[23], k[25])))
  {
    MiddleIsPlain(g, k, s, m);
    BlockAndLayer(g, k, s, 16, PlainMiddle(g, k, m), Middle(g, s, m), g.linInv(k[15], k[17]));
  }

  lemma PreparedIsPlain32<H(!new)>(g: Algebra<H>, k: seq<H>, s: seq<H>, m: (H, H))
    requires Lawful(g) && KeyCount(|k|, 32) && |s| == |k| && Prepared(g, k, s, 32)
    ensures Encrypt(g, s, 32, m) == PlainEncrypt(g, k, 32, m)
  {
    ThirdLayer(g, k, s, m);
    var p := Layer(g, k, 24, PlainRounds(g, k, 16, PlainMiddle(g, k, m)));
    var d := Layer(g, s, 24, Rounds(g, s, 16, Middle(g, s, m)));
    LastBlock(g, k, s, 32, p, d, g.linInv(k[23], k[25]));
    assert Encrypt(g, s, 32, m) == (g.xor(Rounds(g, s, 24, d).1, s[32]), Rounds(g, s, 24, d).0);
  }

  /** With the prepared table the rearranged cipher is the plain one. */
  lemma PreparedIsPlain<H(!new)>(g: Algebra<H>, k: seq<H>, s: seq<H>, max: nat, m: (H, H))
    requires Lawful(g) && KeyCount(|k|, max) && |s| == |k| && Prepared(g, k, s, max)
    ensures Encrypt(g, s, max, m) == PlainEncrypt(g, k, max, m)
  {
    if max == 24 { PreparedIsPlain24(g, k, s, m); } else { PreparedIsPlain32(g, k, s, m); }
  }

  lemma LastWhitening<H(!new)>(g: Algebra<H>, d: H, k: H, w: H)
    requires Group(g)
    ensures g.xor(g.xor(d, k), g.xor(w, k)) == g.xor(d, w)
  {
    assert At(k, w, k) && At(w, k, k) && At(d, k, g.xor(w, k));
    assert At(g.xor(k, w), k, k);
  }

  // -------------------------------------------------- decryption undoes it

  lemma RoundUndoes<H(!new)>(g: Algebra<H>, x: H, s: H, y: H)
    requires Group(g)
    ensures Round(g, x, s, Round(g, x, s, y)) == y
  {
    assert At(y, g.xor(g.f(x), s), y);
  }

  lemma RoundsBackUndo<H(!new)>(g: Algebra<H>, s: seq<H>, i: nat, d: (H, H))
    requires Group(g) && i + 7 < |s|
    ensures var e := Rounds(g, s, i, d); RoundsBack(g, s, i, (e.1, e.0)) == (d.1, d.0)
  {
    var a1 := Round(g, d.0, s[i + 2], d.1);
    var a2 := Round(g, a1, s[i + 3], d.0);
    var a3 := Round(g, a2, s[i + 4], a1);
    var a4 := Round(g, a3, s[i + 5], a2);
    var a5 := Round(g, a4, s[i + 6], a3);
    RoundUndoes(g, a5, s[i + 7], a4);
    RoundUndoes(g, a4, s[i + 6], a3);
    RoundUndoes(g, a3, s[i + 5], a2);
    RoundUndoes(g, a2, s[i + 4], a1);
    RoundUndoes(g, a1, s[i + 3], d.0);
    RoundUndoes(g, d.0, s[i + 2], d.1);
  }

  lemma LayerBackUndoes<H(!new)>(g: Algebra<H>, s: seq<H>, i: nat, d: (H, H))
    requires Lawful(g) && i + 1 < |s|
    ensures var e := Layer(g, s, i, d); LayerBack(g, s, i, (e.1, e.0)) == (d.1, d.0)
  {
    assert At(d.0, d.0, s[i]) && At(d.1, d.1, s[i + 1]);
  }

  /** For every table, prepared or not, decryption undoes encryption. */
  lemma DecryptUndoesEncrypt<H(!new)>(g: Algebra<H>, s: seq<H>, max: nat, m: (H, H))
    requires Lawful(g) && (max == 24 || max == 32) && max < |s|
    ensures Decrypt(g, s, max, Encrypt(g, s, max, m)) == m
  {
    var d0 := (g.xor(m.0, s[0]), m.1);
    var r0 := Rounds(g, s, 0, d0);
    var l1 := Layer(g, s, 8, r0);
    var r1 := Rounds(g, s, 8, l1);
    var l2 := Layer(g, s, 16, r1);
    var r2 := Rounds(g, s, 16, l2);
    RoundsBackUndo(g, s, 0, d0);
    LayerBackUndoes(g, s, 8, r0);
    RoundsBackUndo(g, s, 8, l1);
    LayerBackUndoes(g, s, 16, r1);
    RoundsBackUndo(g, s, 16, l2);
    assert At(m.0, s[0], s[0]);
    if max == 24 {
      assert At(r2.1, s[max], s[max]);
    } else {
      var l3 := Layer(g, s, 24, r2);
      var r3 := Rounds(g, s, 24, l3);
      LayerBackUndoes(g, s, 24, r2);
      RoundsBackUndo(g, s, 24, l3);
      assert At(r3.1, s[max], s[max]);
    }
  }

  // ------------------------------------------------------------ the key setup

  /** Three subkeys absorb a whitening key. */
  function Absorb3<H>(g: Algebra<H>, k: seq<H>, w: H, a: nat, b: nat, c: nat): seq<H>
    requires a < |k| && b < |k| && c < |k| && a != b && b != c && a != c
  {
    k[a := g.xor(k[a], w)][b := g.xor(k[b], w)][c := g.xor(k[c], w)]
  }

  /** kw2, held in k[1], is absorbed by every second round and carried through the
      FL^-1 layers to kw3. */
  function AbsorbKw2<H>(g: Algebra<H>, k: seq<H>, max: nat): seq<H>
    requires KeyCount(|k|, max)
  {
    var k1 := Absorb3(g, k, k[1], 3, 5, 7);
    var k2 := k1[1 := g.linInv(k1[1], k1[9])];
    var k3 := Absorb3(g, k2, k2[1], 11, 13, 15);
    var k4 := k3[1 := g.linInv(k3[1], k3[17])];
    var k5 := Absorb3(g, k4, k4[1], 19, 21, 23);
    if max == 24 then k5[24 := g.xor(k5[24], k5[1])]
    else
      var k6 := k5[1 := g.linInv(k5[1], k5[25])];
      var k7 := Absorb3(g, k6, k6[1], 27, 29, 31);
      k7[32 := g.xor(k7[32], k7[1])]
  }

  /** kw4 is absorbed by the other rounds, from the last to the first, carried back
      through the FL layers to kw1. */
  function AbsorbKw4<H>(g: Algebra<H>, k: seq<H>, max: nat): seq<H>
    requires KeyCount(|k|, max)
  {
    var w3 := k[max + 1];
    var k1 := if max == 24 then k else Absorb3(g, k, w3, 30, 28, 26);
    var w2 := if max == 24 then w3 else g.linInv(w3, k1[24]);
    var k2 := Absorb3(g, k1, w2, 22, 20, 18);
    var w1 := g.linInv(w2, k2[16]);
    var k3 := Absorb3(g, k2, w1, 14, 12, 10);
    var w0 := g.linInv(w1, k3[8]);
    var k4 := Absorb3(g, k3, w0, 6, 4, 2);
    k4[0 := g.xor(k4[0], w0)]
  }

  /** The table made from the absorbed keys `a`: neighbouring keys are combined
      because the key XOR has moved behind the F-function.  Entry 1 is unused. */
  ghost predicate CombinedTable<H(!new)>(g: Algebra<H>, a: seq<H>, s: seq<H>, max: nat)
    requires KeyCount(|a|, max) && |s| == |a|
  {
    && s[0] == g.xor(a[0], a[2]) && s[2] == a[3]
    && InnerKeys(g, a, s, 0) && InnerKeys(g, a, s, 8) && InnerKeys(g, a, s, 16)
    && LayerKeys(g, a, s, 8) && LayerKeys(g, a, s, 16)
    && (max == 32 ==> InnerKeys(g, a, s, 24) && LayerKeys(g, a, s, 24))
    && s[max - 1] == a[max - 2] && s[max] == g.xor(a[max], a[max - 1])
  }

  /** camellia_setup_tail, up to the last loop. */
  ghost predicate SetupTail<H(!new)>(g: Algebra<H>, k: seq<H>, s: seq<H>, max: nat)
    requires KeyCount(|k|, max) && |s| == |k|
  {
    CombinedTable(g, AbsorbKw4(g, AbsorbKw2(g, k, max), max), s, max)
  }

  // ------------------------------------- the setup leaves the prepared table

  lemma BothCancel<H(!new)>(g: Algebra<H>, a: H, b: H, w: H)
    requires Group(g)
    ensures g.xor(g.xor(a, w), g.xor(b, w)) == g.xor(a, b)
  {
    LastWhitening(g, a, w, b);
  }

  /** In block i every second key has absorbed `w`, the others nothing. */
  ghost predicate OddAbsorbed<H(!new)>(g: Algebra<H>, k: seq<H>, a: seq<H>, i: nat, w: H)
    requires i + 7 < |k| && |a| == |k|
  {
    && a[i + 3] == g.xor(k[i + 3], w) && a[i + 5] == g.xor(k[i + 5], w) && a[i + 7] == g.xor(k[i + 7], w)
    && a[i + 2] == k[i + 2] && a[i + 4] == k[i + 4] && a[i + 6] == k[i + 6]
    && a[i] == k[i] && (i > 0 ==> a[i + 1] == k[i + 1])
  }

  ghost predicate EvenAbsorbed<H(!new)>(g: Algebra<H>, k: seq<H>, a: seq<H>, i: nat, w: H)
    requires i + 7 < |k| && |a| == |k|
  {
    && a[i + 2] == g.xor(k[i + 2], w) && a[i + 4] == g.xor(k[i + 4], w) && a[i + 6] == g.xor(k[i + 6], w)
    && a[i + 3] == k[i + 3] && a[i + 5] == k[i + 5] && a[i + 7] == k[i + 7]
    && (i > 0 ==> a[i] == k[i]) && a[i + 1] == k[i + 1]
  }

  lemma Kw2Entries<H(!new)>(g: Algebra<H>, k: seq<H>, max: nat)
    requires KeyCount(|k|, max)
    ensures var a := AbsorbKw2(g, k, max);
            var w0 := k[1];
            var w1 := g.linInv(w0, k[9]);
            var w2 := g.linInv(w1, k[17]);
            && |a| == |k| && a[max + 1] == k[max + 1]
            && OddAbsorbed(g, k, a, 0, w0) && OddAbsorbed(g, k, a, 8, w1) && OddAbsorbed(g, k, a, 16, w2)
            && (max == 24 ==> a[24] == g.xor(k[24], w2))
            && (max == 32 ==> var w3 := g.linInv(w2, k[25]); OddAbsorbed(g, k, a, 24, w3) && a[32] == g.xor(k[32], w3))
  {
  }

  lemma Kw4Entries<H(!new)>(g: Algebra<H>, k: seq<H>, max: nat)
    requires KeyCount(|k|, max)
    ensures var a := AbsorbKw4(g, k, max);
            var w2 := if max == 24 then k[25] else g.linInv(k[33], k[24]);
            var w1 := g.linInv(w2, k[16]);
            var w0 := g.linInv(w1, k[8]);
            && |a| == |k| && a[max] == k[max]
            && EvenAbsorbed(g, k, a, 0, w0) && EvenAbsorbed(g, k, a, 8, w1) && EvenAbsorbed(g, k, a, 16, w2)
            && a[0] == g.xor(k[0], w0)
            && (max == 32 ==> EvenAbsorbed(g, k, a, 24, k[33]))
  {
  }

  /** A block after both absorptions: `w` in the odd entries, `v` in the even ones. */
  ghost predicate BothAbsorbed<H(!new)>(g: Algebra<H>, k: seq<H>, a: seq<H>, i: nat, w: H, v: H)
    requires i + 7 < |k| && |a| == |k|
  {
    && a[i + 3] == g.xor(k[i + 3], w) && a[i + 5] == g.xor(k[i + 5], w) && a[i + 7] == g.xor(k[i + 7], w)
    && a[i + 2] == g.xor(k[i + 2], v) && a[i + 4] == g.xor(k[i + 4], v) && a[i + 6] == g.xor(k[i + 6], v)
    && (i > 0 ==> a[i] == k[i] && a[i + 1] == k[i + 1])
  }

  lemma InnerPrepared<H(!new)>(g: Algebra<H>, k: seq<H>, a: seq<H>, s: seq<H>, i: nat, w: H, v: H)
    requires Group(g) && i + 7 < |k| && |a| == |k| == |s| && BothAbsorbed(g, k, a, i, w, v) && InnerKeys(g, a, s, i)
    ensures InnerKeys(g, k, s, i)
  {
    BothCancel(g, k[i + 2], k[i + 4], v);
    BothCancel(g, k[i + 3], k[i + 5], w);
    BothCancel(g, k[i + 4], k[i + 6], v);
    BothCancel(g, k[i + 5], k[i + 7], w);
  }

  lemma LayerPrepared<H(!new)>(g: Algebra<H>, k: seq<H>, a: seq<H>, s: seq<H>, i: nat, w0: H, v0: H, w: H, v: H)
    requires Lawful(g) && 8 <= i && i + 7 < |k| && |a| == |k| == |s|
    requires BothAbsorbed(g, k, a, i - 8, w0, v0) && BothAbsorbed(g, k, a, i, w, v) && LayerKeys(g, a, s, i)
    requires w == g.linInv(w0, k[i + 1]) && v0 == g.linInv(v, k[i])
    ensures LayerKeys(g, k, s, i)
  {
    assert At(k[i + 2], v, k[i]) && At(k[i - 1], w0, k[i + 1]);
    BothCancel(g, k[i - 2], g.linInv(k[i + 2], k[i]), v0);
    BothCancel(g, g.linInv(k[i - 1], k[i + 1]), k[i + 3], w);
  }

  lemma EndsPrepared<H(!new)>(g: Algebra<H>, k: seq<H>, a: seq<H>, s: seq<H>, max: nat, v0: H, w: H)
    requires Group(g) && KeyCount(|k|, max) && |a| == |k| == |s| && CombinedTable(g, a, s, max)
    requires a[0] == g.xor(k[0], v0) && a[2] == g.xor(k[2], v0) && a[3] == g.xor(k[3], k[1])
    requires a[max] == g.xor(k[max], w) && a[max - 1] == g.xor(k[max - 1], w)
    requires a[max - 2] == g.xor(k[max - 2], k[max + 1])
    ensures s[0] == g.xor(k[0], k[2]) && s[2] == g.xor(k[1], k[3])
    ensures s[max - 1] == g.xor(k[max - 2], k[max + 1]) && s[max] == g.xor(k[max], k[max - 1])
  {
    BothCancel(g, k[0], k[2], v0);
    BothCancel(g, k[max], k[max - 1], w);
    assert At(k[1], k[3], k[3]);
  }

  /** camellia_setup_tail leaves the table the rounds need. */
  lemma SetupPrepares24<H(!new)>(g: Algebra<H>, k: seq<H>, s: seq<H>)
    requires Lawful(g) && KeyCount(|k|, 24) && |s| == |k| && SetupTail(g, k, s, 24)
    ensures Prepared(g, k, s, 24)
  {
    var b := AbsorbKw2(g, k, 24);
    var a := AbsorbKw4(g, b, 24);
    Kw2Entries(g, k, 24);
    Kw4Entries(g, b, 24);
    var w0, v2 := k[1], k[25];
    var w1, v1 := g.linInv(w0, k[9]), g.linInv(v2, k[16]);
    var w2, v0 := g.linInv(w1, k[17]), g.linInv(v1, k[8]);
    assert BothAbsorbed(g, k, a, 0, w0, v0) && BothAbsorbed(g, k, a, 8, w1, v1) && BothAbsorbed(g, k, a, 16, w2, v2);
    InnerPrepared(g, k, a, s, 0, w0, v0);
    InnerPrepared(g, k, a, s, 8, w1, v1);
    InnerPrepared(g, k, a, s, 16, w2, v2);
    LayerPrepared(g, k, a, s, 8, w0, v0, w1, v1);
    LayerPrepared(g, k, a, s, 16, w1, v1, w2, v2);
    EndsPrepared(g, k, a, s, 24, v0, w2);
  }

  lemma SetupPrepares32<H(!new)>(g: Algebra<H>, k: seq<H>, s: seq<H>)
    requires Lawful(g) && KeyCount(|k|, 32) && |s| == |k| && SetupTail(g, k, s, 32)
    ensures Prepared(g, k, s, 32)
  {
    var b := AbsorbKw2(g, k, 32);
    var a := AbsorbKw4(g, b, 32);
    Kw2Entries(g, k, 32);
    Kw4Entries(g, b, 32);
    var w0, v3 := k[1], k[33];
    var w1, v2 := g.linInv(w0, k[9]), g.linInv(v3, k[24]);
    var w2, v1 := g.linInv(w1, k[17]), g.linInv(v2, k[16]);
    var w3, v0 := g.linInv(w2, k[25]), g.linInv(v1, k[8]);
    assert BothAbsorbed(g, k, a, 0, w0, v0) && BothAbsorbed(g, k, a, 8, w1, v1);
    assert BothAbsorbed(g, k, a, 16, w2, v2) && BothAbsorbed(g, k, a, 24, w3, v3);
    InnerPrepared(g, k, a, s, 0, w0, v0);
    InnerPrepared(g, k, a, s, 8, w1, v1);
    InnerPrepared(g, k, a, s, 16, w2, v2);
    InnerPrepared(g, k, a, s, 24, w3, v3);
    LayerPrepared(g, k, a, s, 8, w0, v0, w1, v1);
    LayerPrepared(g, k, a, s, 16, w1, v1, w2, v2);
    LayerPrepared(g, k, a, s, 24, w2, v2, w3, v3);
    EndsPrepared(g, k, a, s, 32, v0, w3);
  }

  /** For all raw subkeys and all blocks, encrypting with the table the setup leaves
      is the plain cipher. */
  lemma SetupThenEncryptIsPlain<H(!new)>(g: Algebra<H>, k: seq<H>, s: seq<H>, max: nat, m: (H, H))
    requires Lawful(g) && KeyCount(|k|, max) && |s| == |k| && SetupTail(g, k, s, max)
    ensures Encrypt(g, s, max, m) == PlainEncrypt(g, k, max, m)
  {
    if max == 24 { SetupPrepares24(g, k, s); } else { SetupPrepares32(g, k, s); }
    PreparedIsPlain(g, k, s, max, m);
  }

  // ------------------------------------------------ algebras that agree

  /** Two algebras with the same values, at the values named by At. */
  ghost predicate Agree<H(!new)>(g: Algebra<H>, g': Algebra<H>) {
    forall a, b, c {:trigger At(a, b, c)} :: At(a, b, c) ==>
      g.xor(a, b) == g'.xor(a, b) && g.f(a) == g'.f(a) && g.fl(a, b) == g'.fl(a, b) && g.flInv(a, b) == g'.flInv(a, b)
  }

  lemma PlainAgrees<H(!new)>(g: Algebra<H>, g': Algebra<H>, x: H, k: H, y: H)
    requires Agree(g, g')
    ensures Plain(g, x, k, y) == Plain(g', x, k, y)
  {
    var v := g.xor(x, k);
    assert At(x, k, k) && At(v, v, v) && At(y, g.f(v), v);
  }

  lemma PlainRoundsAgree<H(!new)>(g: Algebra<H>, g': Algebra<H>, k: seq<H>, i: nat, d: (H, H))
    requires Agree(g, g') && i + 7 < |k|
    ensures PlainRounds(g, k, i, d) == PlainRounds(g', k, i, d)
  {
    var a1 := Plain(g, d.0, k[i + 2], d.1);
    var a2 := Plain(g, a1, k[i + 3], d.0);
    var a3 := Plain(g, a2, k[i + 4], a1);
    var a4 := Plain(g, a3, k[i + 5], a2);
    var a5 := Plain(g, a4, k[i + 6], a3);
    PlainAgrees(g, g', d.0, k[i + 2], d.1);
    PlainAgrees(g, g', a1, k[i + 3], d.0);
    PlainAgrees(g, g', a2, k[i + 4], a1);
    PlainAgrees(g, g', a3, k[i + 5], a2);
    PlainAgrees(g, g', a4, k[i + 6], a3);
    PlainAgrees(g, g', a5, k[i + 7], a4);
  }

  lemma LayerAgrees<H(!new)>(g: Algebra<H>, g': Algebra<H>, k: seq<H>, i: nat, d: (H, H))
    requires Agree(g, g') && i + 1 < |k|
    ensures Layer(g, k, i, d) == Layer(g', k, i, d)
  {
    assert At(d.0, k[i], k[i]) && At(d.1, k[i + 1], k[i + 1]);
  }

  lemma PlainMiddleAgrees<H(!new)>(g: Algebra<H>, g': Algebra<H>, k: seq<H>, m: (H, H))
    requires Agree(g, g') && 24 <= |k|
    ensures PlainMiddle(g, k, m) == PlainMiddle(g', k, m)
  {
    assert At(m.0, k[0], k[0]) && At(m.1, k[1], k[1]);
    var d0 := (g.xor(m.0, k[0]), g.xor(m.1, k[1]));
    PlainRoundsAgree(g, g', k, 0, d0);
    LayerAgrees(g, g', k, 8, PlainRounds(g, k, 0, d0));
    var d1 := Layer(g, k, 8, PlainRounds(g, k, 0, d0));
    PlainRoundsAgree(g, g', k, 8, d1);
    LayerAgrees(g, g', k, 16, PlainRounds(g, k, 8, d1));
  }

  lemma PlainEncryptAgrees<H(!new)>(g: Algebra<H>, g': Algebra<H>, k: seq<H>, max: nat, m: (H, H))
    requires Agree(g, g') && KeyCount(|k|, max)
    ensures PlainEncrypt(g, k, max, m) == PlainEncrypt(g', k, max, m)
  {
    PlainMiddleAgrees(g, g', k, m);
    var d := PlainMiddle(g, k, m);
    PlainRoundsAgree(g, g', k, 16, d);
    var e := PlainRounds(g, k, 16, d);
    if max == 24 {
      assert At(e.1, k[24], e.1) && At(e.0, k[25], e.0);
    } else {
      LayerAgrees(g, g', k, 24, e);
      PlainRoundsAgree(g, g', k, 24, Layer(g, k, 24, e));
      var e' := PlainRounds(g, k, 24, Layer(g, k, 24, e));
      assert At(e'.1, k[32], e'.1) && At(e'.0, k[33], e'.0);
    }
  }

  lemma Combination<H(!new)>(g: Algebra<H>, g': Algebra<H>, k: seq<H>, s: seq<H>, max: nat, m: (H, H))
    requires Lawful(g) && Agree(g, g') && KeyCount(|k|, max) && |s| == |k| && SetupTail(g, k, s, max)
    ensures Encrypt(g, s, max, m) == PlainEncrypt(g', k, max, m)
  {
    SetupThenEncryptIsPlain(g, k, s, max, m);
    PlainEncryptAgrees(g, g', k, max, m);
  }
}
