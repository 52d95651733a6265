/** The word-level functions of crypto/camellia.c.  A 32-bit word is its sequence of
    bits, most significant first; two words make a half block.  For every choice of
    the lookup tables they form an algebra in the sense of CamelliaAlgebra. */
module CamelliaWords {
  import opened CamelliaAlgebra
  import opened CamelliaKernel

  type Word = w: seq<bool> | |w| == 32 witness seq(32, _ => false)
  const ZERO: Word := seq(32, _ => false)

  type Byte = b: seq<bool> | |b| == 8 witness seq(8, _ => false)

  function XorW(a: Word, b: Word): (r: Word)
    ensures forall i :: 0 <= i < 32 ==> r[i] == (a[i] != b[i])
  {
    seq(32, i requires 0 <= i < 32 => a[i] != b[i])
  }

  function AndW(a: Word, b: Word): (r: Word)
    ensures forall i :: 0 <= i < 32 ==> r[i] == (a[i] && b[i])
  {
    seq(32, i requires 0 <= i < 32 => a[i] && b[i])
  }

  function OrW(a: Word, b: Word): (r: Word)
    ensures forall i :: 0 <= i < 32 ==> r[i] == (a[i] || b[i])
  {
    seq(32, i requires 0 <= i < 32 => a[i] || b[i])
  }

  function NotW(a: Word): (r: Word)
    ensures forall i :: 0 <= i < 32 ==> r[i] == !a[i]
  {
    seq(32, i requires 0 <= i < 32 => !a[i])
  }

  /** rol32(a, n); ror32(a, n) is rol32(a, 32 - n). */
  function RolW(a: Word, n: nat): (r: Word)
    requires n <= 32
    ensures forall i :: 0 <= i < 32 ==> r[i] == a[if i + n < 32 then i + n else i + n - 32]
  {
    a[n..] + a[..n]
  }

  datatype Half = Half(l: Word, r: Word)

  function Xor(a: Half, b: Half): Half { Half(XorW(a.l, b.l), XorW(a.r, b.r)) }

  /** The lookup tables. */
  datatype Tables = Tables(sp1110: Byte -> Word, sp0222: Byte -> Word, sp3033: Byte -> Word, sp4404: Byte -> Word)

  function Lookup(t: Tables, b1: Byte, b2: Byte, b3: Byte, b4: Byte): Word {
    XorW(XorW(XorW(t.sp1110(b1), t.sp0222(b2)), t.sp3033(b3)), t.sp4404(b4))
  }

  /** The lookups of the left and of the right word of the input. */
  function SubL(t: Tables, xl: Word): Word { Lookup(t, xl[..8], xl[8..16], xl[16..24], xl[24..]) }

  function SubR(t: Tables, xr: Word): Word { Lookup(t, xr[24..], xr[..8], xr[8..16], xr[16..24]) }

  /** The last half of the P-function: yl ^= yr; yr = ror32(yr, 8); yr ^= yl. */
  function Spread(a: Word, b: Word): Half { Half(XorW(a, b), XorW(RolW(b, 24), XorW(a, b))) }

  /** CAMELLIA_F of a keyed input. */
  function F(t: Tables, x: Half): Half { Spread(SubR(t, x.r), SubL(t, x.l)) }

  /** FL and FL^-1 of sections 2.4.2 and 2.4.3 of RFC 3713, as CAMELLIA_FLS does them. */
  function FL(x: Half, k: Half): Half {
    var r := XorW(x.r, RolW(AndW(x.l, k.l), 1));
    Half(XorW(x.l, OrW(r, k.r)), r)
  }

  function FLInv(y: Half, k: Half): Half {
    var l := XorW(y.l, OrW(y.r, k.r));
    Half(l, XorW(y.r, RolW(AndW(l, k.l), 1)))
  }

  /** The same without the constant part; the second is the step the key setup
      applies to a key it carries through a layer. */
  function Lin(x: Half, k: Half): Half {
    var r := XorW(x.r, RolW(AndW(x.l, k.l), 1));
    Half(XorW(x.l, AndW(r, NotW(k.r))), r)
  }

  function LinInv(y: Half, k: Half): Half {
    var l := XorW(y.l, AndW(y.r, NotW(k.r)));
    Half(l, XorW(y.r, RolW(AndW(l, k.l), 1)))
  }

  function Camellia(t: Tables): Algebra<Half> {
    Algebra((a, b) => Xor(a, b), x => F(t, x), (x, k) => FL(x, k), (x, k) => FLInv(x, k),
            (x, k) => Lin(x, k), (x, k) => LinInv(x, k))
  }

  // --------------------------------------------------------------- word laws

  lemma WordGroup(a: Word, b: Word, c: Word)
    ensures XorW(a, b) == XorW(b, a)
    ensures XorW(XorW(a, b), c) == XorW(a, XorW(b, c))
    ensures XorW(XorW(a, b), b) == a
  {
  }

  /** Pairs of summands may be exchanged. */
  lemma WordSwap(a: Word, b: Word, c: Word, d: Word)
    ensures XorW(XorW(a, b), XorW(c, d)) == XorW(XorW(a, c), XorW(b, d))
  {
  }

  lemma RolXor(a: Word, b: Word, n: nat)
    requires n <= 32
    ensures RolW(XorW(a, b), n) == XorW(RolW(a, n), RolW(b, n))
  {
  }

  lemma RolBack(a: Word, n: nat)
    requires n <= 32
    ensures RolW(RolW(a, n), 32 - n) == a
  {
  }

  lemma AndXor(a: Word, b: Word, k: Word)
    ensures AndW(XorW(a, b), k) == XorW(AndW(a, k), AndW(b, k))
  {
  }

  lemma OrXor(a: Word, b: Word, k: Word)
    ensures OrW(XorW(a, b), k) == XorW(OrW(a, k), AndW(b, NotW(k)))
  {
  }

  lemma FLAffine(x: Half, c: Half, k: Half)
    ensures FL(Xor(x, c), k) == Xor(FL(x, k), Lin(c, k))
  {
    var a, ac := AndW(x.l, k.l), AndW(c.l, k.l);
    var r, rc := XorW(x.r, RolW(a, 1)), XorW(c.r, RolW(ac, 1));
    AndXor(x.l, c.l, k.l);
    RolXor(a, ac, 1);
    WordSwap(x.r, c.r, RolW(a, 1), RolW(ac, 1));
    OrXor(r, rc, k.r);
    WordSwap(x.l, c.l, OrW(r, k.r), AndW(rc, NotW(k.r)));
  }

  lemma FLInvAffine(y: Half, c: Half, k: Half)
    ensures FLInv(Xor(y, c), k) == Xor(FLInv(y, k), LinInv(c, k))
  {
    var l, lc := XorW(y.l, OrW(y.r, k.r)), XorW(c.l, AndW(c.r, NotW(k.r)));
    OrXor(y.r, c.r, k.r);
    WordSwap(y.l, c.l, OrW(y.r, k.r), AndW(c.r, NotW(k.r)));
    AndXor(l, lc, k.l);
    RolXor(AndW(l, k.l), AndW(lc, k.l), 1);
    WordSwap(y.r, c.r, RolW(AndW(l, k.l), 1), RolW(AndW(lc, k.l), 1));
  }

  lemma LinInvLinear(a: Half, b: Half, k: Half)
    ensures LinInv(Xor(a, b), k) == Xor(LinInv(a, k), LinInv(b, k))
  {
    var n := NotW(k.r);
    var la, lb := XorW(a.l, AndW(a.r, n)), XorW(b.l, AndW(b.r, n));
    AndXor(a.r, b.r, n);
    WordSwap(a.l, b.l, AndW(a.r, n), AndW(b.r, n));
    AndXor(la, lb, k.l);
    RolXor(AndW(la, k.l), AndW(lb, k.l), 1);
    WordSwap(a.r, b.r, RolW(AndW(la, k.l), 1), RolW(AndW(lb, k.l), 1));
  }

  lemma LinUndoesLinInv(c: Half, k: Half)
    ensures Lin(LinInv(c, k), k) == c
  {
    var l := XorW(c.l, AndW(c.r, NotW(k.r)));
    WordGroup(c.r, RolW(AndW(l, k.l), 1), c.r);
    WordGroup(c.l, AndW(c.r, NotW(k.r)), c.l);
  }

  lemma FLUndoes(x: Half, k: Half)
    ensures FLInv(FL(x, k), k) == x && FL(FLInv(x, k), k) == x
  {
    var r := XorW(x.r, RolW(AndW(x.l, k.l), 1));
    WordGroup(x.l, OrW(r, k.r), x.l);
    WordGroup(x.r, RolW(AndW(x.l, k.l), 1), x.r);
    var l := XorW(x.l, OrW(x.r, k.r));
    WordGroup(x.r, RolW(AndW(l, k.l), 1), x.r);
    WordGroup(x.l, OrW(x.r, k.r), x.l);
  }

  lemma HalfGroup(a: Half, b: Half, c: Half)
    ensures Xor(a, b) == Xor(b, a) && Xor(Xor(a, b), c) == Xor(a, Xor(b, c)) && Xor(Xor(a, b), b) == a
  {
    WordGroup(a.l, b.l, c.l);
    WordGroup(a.r, b.r, c.r);
  }

  /** The words of Camellia are lawful for every choice of tables. */
  lemma CamelliaIsLawful(t: Tables)
    ensures Lawful(Camellia(t))
  {
    var g := Camellia(t);
    forall a: Half, b: Half, c: Half | At(a, b, c)
      ensures g.xor(a, b) == g.xor(b, a) && g.xor(g.xor(a, b), c) == g.xor(a, g.xor(b, c)) && g.xor(g.xor(a, b), b) == a
    {
      HalfGroup(a, b, c);
    }
    forall a: Half, b: Half, k: Half | At(a, b, k)
      ensures g.fl(g.xor(a, b), k) == g.xor(g.fl(a, k), g.lin(b, k))
      ensures g.flInv(g.xor(a, b), k) == g.xor(g.flInv(a, k), g.linInv(b, k))
      ensures g.linInv(g.xor(a, b), k) == g.xor(g.linInv(a, k), g.linInv(b, k))
      ensures g.lin(g.linInv(a, k), k) == a
      ensures g.flInv(g.fl(a, k), k) == a && g.fl(g.flInv(a, k), k) == a
    {
      FLAffine(a, b, k);
      FLInvAffine(a, b, k);
      LinInvLinear(a, b, k);
      LinUndoesLinInv(a, k);
      FLUndoes(a, k);
    }
  }

  // ----------------------------------------------- the key behind the S-boxes

  /** CAMELLIA_ROUNDSM: the new value of y. */
  function RoundSm(t: Tables, x: Half, k: Half, y: Half): Half {
    var il := XorW(SubL(t, x.l), k.l);
    var ir := XorW(SubR(t, x.r), XorW(il, k.r));
    Half(XorW(y.l, ir), XorW(y.r, XorW(RolW(il, 24), ir)))
  }

  /** The step of the last loop of camellia_setup_tail. */
  function Unspread(k: Half): Half {
    var dw := RolW(XorW(k.l, k.r), 8);
    Half(dw, XorW(k.l, dw))
  }

  /** The key as CAMELLIA_ROUNDSM adds it to y. */
  function Injected(k: Half): Half { Spread(k.r, k.l) }

  /** Whatever the key, a round adds F of the input and the injected key. */
  lemma KeyPastSboxes(t: Tables, x: Half, k: Half, y: Half)
    ensures RoundSm(t, x, k, y) == Xor(y, Xor(F(t, x), Injected(k)))
  {
    var b, a := SubL(t, x.l), SubR(t, x.r);
    var il := XorW(b, k.l);
    var ir := XorW(a, XorW(il, k.r));
    WordSwap(a, b, k.r, k.l);
    WordGroup(b, k.l, k.r);
    WordGroup(a, b, XorW(k.l, k.r));
    WordGroup(k.l, k.r, k.r);
    assert ir == XorW(XorW(a, b), XorW(k.r, k.l));
    RolXor(b, k.l, 24);
    WordSwap(RolW(b, 24), RolW(k.l, 24), XorW(a, b), XorW(k.r, k.l));
  }

  /** The setup loop prepares exactly the key that gets injected. */
  lemma InjectedUnspread(k: Half)
    ensures Injected(Unspread(k)) == k
  {
    var d := XorW(k.l, k.r);
    var dw := RolW(d, 8);
    WordGroup(k.l, dw, dw);
    RolBack(d, 8);
    WordGroup(k.r, k.l, k.l);
    WordGroup(k.l, k.r, k.l);
    assert XorW(d, k.l) == k.r;
  }

  // ------------------------------------------------ section 2.4.1 of RFC 3713

  datatype Sboxes = Sboxes(s1: Byte -> Byte, s2: Byte -> Byte, s3: Byte -> Byte, s4: Byte -> Byte)

  const ZERO_BYTE: Byte := [false, false, false, false, false, false, false, false]

  function Join(a: Byte, b: Byte, c: Byte, d: Byte): Word { a + b + c + d }

  /** How camellia_sp1110 and its sisters are laid out: the S-box value in three of
      the four bytes, as the names say. */
  function TablesOf(s: Sboxes): Tables {
    Tables(b => Join(s.s1(b), s.s1(b), s.s1(b), ZERO_BYTE), b => Join(ZERO_BYTE, s.s2(b), s.s2(b), s.s2(b)),
           b => Join(s.s3(b), ZERO_BYTE, s.s3(b), s.s3(b)), b => Join(s.s4(b), s.s4(b), ZERO_BYTE, s.s4(b)))
  }

  function XorB(a: Byte, b: Byte): (r: Byte)
    ensures forall i :: 0 <= i < 8 ==> r[i] == (a[i] != b[i])
  {
    seq(8, i requires 0 <= i < 8 => a[i] != b[i])
  }

  function Xor4(a: Byte, b: Byte, c: Byte, d: Byte): Byte { XorB(XorB(XorB(a, b), c), d) }

  /** The F-function byte by byte, as the standard writes it: t1 .. t8 are the
      S-box outputs, each result byte the XOR of five or six of them. */
  function StandardF(s: Sboxes, x: Half): Half {
    var t1, t2, t3, t4 := s.s1(x.l[..8]), s.s2(x.l[8..16]), s.s3(x.l[16..24]), s.s4(x.l[24..]);
    var t5, t6, t7, t8 := s.s2(x.r[..8]), s.s3(x.r[8..16]), s.s4(x.r[16..24]), s.s1(x.r[24..]);
    Half(Join(XorB(XorB(t1, t3), Xor4(t4, t6, t7, t8)), XorB(XorB(t1, t2), Xor4(t4, t5, t7, t8)),
              XorB(XorB(t1, t2), Xor4(t3, t5, t6, t8)), XorB(XorB(t2, t3), Xor4(t4, t5, t6, t7))),
         Join(XorB(t1, Xor4(t2, t6, t7, t8)), XorB(t2, Xor4(t3, t5, t7, t8)),
              XorB(t3, Xor4(t4, t5, t6, t8)), XorB(t1, Xor4(t4, t5, t6, t7))))
  }

  lemma XorJoin(a: Byte, b: Byte, c: Byte, d: Byte, a': Byte, b': Byte, c': Byte, d': Byte)
    ensures XorW(Join(a, b, c, d), Join(a', b', c', d')) == Join(XorB(a, a'), XorB(b, b'), XorB(c, c'), XorB(d, d'))
  {
  }

  lemma RorJoin(a: Byte, b: Byte, c: Byte, d: Byte)
    ensures RolW(Join(a, b, c, d), 24) == Join(d, a, b, c)
  {
  }

  /** What the four lookups of a word add up to. */
  lemma LookupJoin(s: Sboxes, b1: Byte, b2: Byte, b3: Byte, b4: Byte)
    ensures var u1, u2, u3, u4 := s.s1(b1), s.s2(b2), s.s3(b3), s.s4(b4);
            Lookup(TablesOf(s), b1, b2, b3, b4)
            == Join(XorB(u1, XorB(u3, u4)), XorB(u1, XorB(u2, u4)), XorB(u1, XorB(u2, u3)), XorB(u2, XorB(u3, u4)))
  {
    var u1, u2, u3, u4, z := s.s1(b1), s.s2(b2), s.s3(b3), s.s4(b4), ZERO_BYTE;
    XorJoin(u1, u1, u1, z, z, u2, u2, u2);
    XorJoin(XorB(u1, z), XorB(u1, u2), XorB(u1, u2), XorB(z, u2), u3, z, u3, u3);
    XorJoin(XorB(XorB(u1, z), u3), XorB(XorB(u1, u2), z), XorB(XorB(u1, u2), u3), XorB(XorB(z, u2), u3), u4, u4, z, u4);
    assert XorB(XorB(XorB(u1, z), u3), u4) == XorB(u1, XorB(u3, u4));
    assert XorB(XorB(XorB(u1, u2), z), u4) == XorB(u1, XorB(u2, u4));
    assert XorB(XorB(XorB(u1, u2), u3), z) == XorB(u1, XorB(u2, u3));
    assert XorB(XorB(XorB(z, u2), u3), u4) == XorB(u2, XorB(u3, u4));
  }

  /** The table form of F is the F-function of the standard, for any S-boxes. */
  lemma TablesComputeStandardF(s: Sboxes, x: Half)
    ensures F(TablesOf(s), x) == StandardF(s, x)
  {
    var t1, t2, t3, t4 := s.s1(x.l[..8]), s.s2(x.l[8..16]), s.s3(x.l[16..24]), s.s4(x.l[24..]);
    var t5, t6, t7, t8 := s.s2(x.r[..8]), s.s3(x.r[8..16]), s.s4(x.r[16..24]), s.s1(x.r[24..]);
    LookupJoin(s, x.l[..8], x.l[8..16], x.l[16..24], x.l[24..]);
    LookupJoin(s, x.r[24..], x.r[..8], x.r[8..16], x.r[16..24]);
    var a, b, c, d := XorB(t8, XorB(t6, t7)), XorB(t8, XorB(t5, t7)), XorB(t8, XorB(t5, t6)), XorB(t5, XorB(t6, t7));
    var a', b' := XorB(t1, XorB(t3, t4)), XorB(t1, XorB(t2, t4));
    var c', d' := XorB(t1, XorB(t2, t3)), XorB(t2, XorB(t3, t4));
    XorJoin(a, b, c, d, a', b', c', d');
    RorJoin(a', b', c', d');
    XorJoin(d', a', b', c', XorB(a, a'), XorB(b, b'), XorB(c, c'), XorB(d, d'));
    LeftBytes(t1, t2, t3, t4, t5, t6, t7, t8);
    RightBytes(t1, t2, t3, t4, t5, t6, t7, t8);
  }

  lemma LeftBytes(t1: Byte, t2: Byte, t3: Byte, t4: Byte, t5: Byte, t6: Byte, t7: Byte, t8: Byte)
    ensures XorB(XorB(t8, XorB(t6, t7)), XorB(t1, XorB(t3, t4))) == XorB(XorB(t1, t3), Xor4(t4, t6, t7, t8))
    ensures XorB(XorB(t8, XorB(t5, t7)), XorB(t1, XorB(t2, t4))) == XorB(XorB(t1, t2), Xor4(t4, t5, t7, t8))
    ensures XorB(XorB(t8, XorB(t5, t6)), XorB(t1, XorB(t2, t3))) == XorB(XorB(t1, t2), Xor4(t3, t5, t6, t8))
    ensures XorB(XorB(t5, XorB(t6, t7)), XorB(t2, XorB(t3, t4))) == XorB(XorB(t2, t3), Xor4(t4, t5, t6, t7))
  {
  }

  lemma RightBytes(t1: Byte, t2: Byte, t3: Byte, t4: Byte, t5: Byte, t6: Byte, t7: Byte, t8: Byte)
    ensures XorB(XorB(t2, XorB(t3, t4)), XorB(XorB(t8, XorB(t6, t7)), XorB(t1, XorB(t3, t4))))
            == XorB(t1, Xor4(t2, t6, t7, t8))
    ensures XorB(XorB(t1, XorB(t3, t4)), XorB(XorB(t8, XorB(t5, t7)), XorB(t1, XorB(t2, t4))))
            == XorB(t2, Xor4(t3, t5, t7, t8))
    ensures XorB(XorB(t1, XorB(t2, t4)), XorB(XorB(t8, XorB(t5, t6)), XorB(t1, XorB(t2, t3))))
            == XorB(t3, Xor4(t4, t5, t6, t8))
    ensures XorB(XorB(t1, XorB(t2, t3)), XorB(XorB(t5, XorB(t6, t7)), XorB(t2, XorB(t3, t4))))
            == XorB(t1, Xor4(t4, t5, t6, t7))
  {
  }

  // ------------------------------------------------------------ the cipher

  function CamelliaMacros(t: Tables): Macros<Half> {
    Macros((x, k, y) => RoundSm(t, x, k, y), k => Unspread(k), k => Injected(k))
  }

  lemma MacrosImplement(t: Tables)
    ensures Implements(CamelliaMacros(t), Camellia(t))
  {
    forall x: Half, k: Half, y: Half | At(x, k, y)
      ensures CamelliaMacros(t).round(x, k, y) == Round(Camellia(t), x, Injected(k), y)
      ensures Injected(Unspread(k)) == k
    {
      KeyPastSboxes(t, x, k, y);
      InjectedUnspread(k);
    }
  }

  /** The plain cipher with the F-function of the standard. */
  function Standard(s: Sboxes): Algebra<Half> {
    Algebra((a, b) => Xor(a, b), x => StandardF(s, x), (x, k) => FL(x, k), (x, k) => FLInv(x, k),
            (x, k) => Lin(x, k), (x, k) => LinInv(x, k))
  }

  lemma StandardAgrees(s: Sboxes)
    ensures Agree(Camellia(TablesOf(s)), Standard(s))
  {
    forall a: Half, b: Half, c: Half | At(a, b, c)
      ensures F(TablesOf(s), a) == StandardF(s, a)
    {
      TablesComputeStandardF(s, a);
    }
  }

  /** For all S-boxes, raw subkeys and blocks, a table left by the setup (the meaning
      of its round keys being that of SetupTail) encrypts as the standard says. */
  lemma CamelliaIsStandard(s: Sboxes, k: seq<Half>, w: seq<Half>, max: nat, m: (Half, Half))
    requires KeyCount(|k|, max) && |w| == |k|
    requires SetupTail(Camellia(TablesOf(s)), k, Meaning(CamelliaMacros(TablesOf(s)), w, max), max)
    ensures Encrypt(Camellia(TablesOf(s)), Meaning(CamelliaMacros(TablesOf(s)), w, max), max, m)
            == PlainEncrypt(Standard(s), k, max, m)
  {
    ForStandard(Camellia(TablesOf(s)), Standard(s), s, k, Meaning(CamelliaMacros(TablesOf(s)), w, max), max, m);
  }

  lemma ForStandard(g: Algebra<Half>, g': Algebra<Half>, s: Sboxes, k: seq<Half>, w: seq<Half>, max: nat,
                    m: (Half, Half))
    requires KeyCount(|k|, max) && |w| == |k| && SetupTail(g, k, w, max)
    requires g == Camellia(TablesOf(s)) && g' == Standard(s)
    ensures Encrypt(g, w, max, m) == PlainEncrypt(g', k, max, m)
  {
    CamelliaIsLawful(TablesOf(s));
    StandardAgrees(s);
    Combination(g, g', k, w, max, m);
  }
}
