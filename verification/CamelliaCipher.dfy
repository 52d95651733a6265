/** The cipher as its users see it: a context whose key table is made by
    camellia_setup_tail and used by camellia_encrypt and camellia_decrypt, with the word-level
    macros of crypto/camellia.c in place. */
module CamelliaCipher {
  import opened CamelliaAlgebra
  import opened CamelliaInverse
  import opened CamelliaKernel
  import opened CamelliaWords

  /** Encryption on a table left by the setup, for macros that implement an algebra which
      agrees with a standard one. */
  method EncryptAs<H(!new)>(c: Macros<H>, g: Algebra<H>, ghost g': Algebra<H>, ghost k: seq<H>,
                            table: seq<H>, io: array<H>, max: nat)
    requires io.Length == 2 && Implements(c, g) && Lawful(g) && Agree(g, g') && KeyCount(|k|, max) && |table| == |k|
    requires SetupTail(g, k, Meaning(c, table, max), max)
    modifies io
    ensures Block(io) == PlainEncrypt(g', k, max, old(Block(io)))
  {
    PlainEncryptAgrees(g, g', k, max, Block(io));
    EncryptBlock(c, g, k, table, io, max);
  }

  method DecryptAs<H(!new)>(c: Macros<H>, g: Algebra<H>, ghost g': Algebra<H>, ghost k: seq<H>,
                            table: seq<H>, io: array<H>, max: nat)
    requires io.Length == 2 && Implements(c, g) && Lawful(g) && Agree(g, g') && KeyCount(|k|, max) && |table| == |k|
    requires SetupTail(g, k, Meaning(c, table, max), max)
    modifies io
    ensures Block(io) == PlainEncrypt(g', Reversed(k, max), max, old(Block(io)))
    ensures PlainEncrypt(g', k, max, Block(io)) == old(Block(io))
  {
    DecryptAgrees(g, g', k, Meaning(c, table, max), max, Block(io));
    DoDecrypt(c, g, table, io, max);
    io[0], io[1] := io[1], io[0];
  }

  lemma DecryptAgrees<H(!new)>(g: Algebra<H>, g': Algebra<H>, k: seq<H>, w: seq<H>, max: nat, c: (H, H))
    requires Lawful(g) && Agree(g, g') && KeyCount(|k|, max) && |w| == |k| && SetupTail(g, k, w, max)
    ensures var m := Decrypt(g, w, max, c);
            m == PlainEncrypt(g', Reversed(k, max), max, c) && PlainEncrypt(g', k, max, m) == c
  {
    SetupThenDecryptIsPlain(g, k, w, max, c);
    PlainEncryptAgrees(g, g', Reversed(k, max), max, c);
    PlainEncryptAgrees(g, g', k, max, Decrypt(g, w, max, c));
  }

  /** struct camellia_ctx: key_table, and key_length as the number of subkeys in use.  The
      macros come with the algebra they implement; `standard` is what it agrees with and
      `raw` the subkeys the table was made of. */
  class Context<H(!new)> {
    const macros: Macros<H>
    const algebra: Algebra<H>
    const keyTable: seq<H>
    const max: nat
    ghost const standard: Algebra<H>
    ghost const raw: seq<H>

    ghost predicate Valid() {
      && Implements(macros, algebra) && Lawful(algebra) && Agree(algebra, standard)
      && KeyCount(|raw|, max) && |keyTable| == |raw|
      && SetupTail(algebra, raw, Meaning(macros, keyTable, max), max)
    }

    /** camellia_setup_tail on the raw subkeys, in a table of its own. */
    constructor (c: Macros<H>, g: Algebra<H>, ghost g': Algebra<H>, sub: array<H>, subkey: array<H>, max: nat)
      requires Implements(c, g) && Lawful(g) && Agree(g, g')
      requires KeyCount(sub.Length, max) && subkey.Length == sub.Length && sub != subkey
      modifies sub, subkey
      ensures Valid() && standard == g' && raw == old(sub[..]) && this.max == max
    {
      macros, algebra, standard, this.max, raw := c, g, g', max, sub[..];
      Setup(c, g, sub, subkey, max);
      keyTable := subkey[..];
    }

    /** camellia_encrypt: the cipher of sections 2.3.1 and 2.3.2 of RFC 3713. */
    method EncryptBlock(io: array<H>)
      requires Valid() && io.Length == 2
      modifies io
      ensures Block(io) == PlainEncrypt(standard, raw, max, old(Block(io)))
    {
      EncryptAs(macros, algebra, standard, raw, keyTable, io, max);
    }

    /** camellia_decrypt: the procedure of section 2.3.3, and the inverse of encryption. */
    method DecryptBlock(io: array<H>)
      requires Valid() && io.Length == 2
      modifies io
      ensures Block(io) == PlainEncrypt(standard, Reversed(raw, max), max, old(Block(io)))
      ensures PlainEncrypt(standard, raw, max, Block(io)) == old(Block(io))
    {
      DecryptAs(macros, algebra, standard, raw, keyTable, io, max);
    }
  }

  /** The words of camellia.c implement, lawfully, what agrees with the standard. */
  lemma WordsAreStandard(s: Sboxes)
    ensures Implements(CamelliaMacros(TablesOf(s)), Camellia(TablesOf(s)))
    ensures Lawful(Camellia(TablesOf(s))) && Agree(Camellia(TablesOf(s)), Standard(s))
  {
    MacrosImplement(TablesOf(s));
    CamelliaIsLawful(TablesOf(s));
    StandardAgrees(s);
  }

  /** A context with the word-level macros: it holds the standard cipher of the subkeys. */
  method SetKey(s: Sboxes, sub: array<Half>, max: nat) returns (x: Context<Half>)
    requires KeyCount(sub.Length, max)
    modifies sub
    ensures x.Valid() && x.standard == Standard(s) && x.raw == old(sub[..]) && x.max == max
  {
    WordsAreStandard(s);
    var subkey := new Half[sub.Length](_ => Half(ZERO, ZERO));
    x := new Context<Half>(CamelliaMacros(TablesOf(s)), Camellia(TablesOf(s)), Standard(s), sub, subkey, max);
  }

  /** Setting the key and encrypting is the standard cipher, for all S-boxes, raw subkeys and
      blocks. */
  method SetupAndEncrypt(s: Sboxes, sub: array<Half>, io: array<Half>, max: nat)
    requires KeyCount(sub.Length, max) && io.Length == 2 && io != sub
    modifies sub, io
    ensures Block(io) == PlainEncrypt(Standard(s), old(sub[..]), max, old(Block(io)))
  {
    var x := SetKey(s, sub, max);
    x.EncryptBlock(io);
  }

  /** Setting the key and decrypting is the standard's decryption and undoes its cipher. */
  method SetupAndDecrypt(s: Sboxes, sub: array<Half>, io: array<Half>, max: nat)
    requires KeyCount(sub.Length, max) && io.Length == 2 && io != sub
    modifies sub, io
    ensures Block(io) == PlainEncrypt(Standard(s), Reversed(old(sub[..]), max), max, old(Block(io)))
    ensures PlainEncrypt(Standard(s), old(sub[..]), max, Block(io)) == old(Block(io))
  {
    var x := SetKey(s, sub, max);
    x.DecryptBlock(io);
  }
}
