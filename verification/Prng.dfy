/** The generator of crypto/ansi_cprng.c: however it is read, the bytes are those of the
    block stream of ANSI X9.31 Appendix A.2.4. */
module Prng {

  type Block = seq<nat>

  const SIZE := 16

  /** The block cipher under its key, the exclusive or of two blocks, and how the counter
      goes on. */
  datatype Cipher = Cipher(encrypt: Block -> Block, xor: (Block, Block) -> Block, count: Block -> Block)

  /** The cipher gives blocks. */
  ghost predicate CipherOk(c: Cipher) { forall x: Block {:trigger c.encrypt(x)} :: |c.encrypt(x)| == SIZE }

  /** The counter is increased by one. */
  ghost predicate Counts(c: Cipher) { forall x: Block {:trigger c.count(x)} :: c.count(x) == Inc(x) }

  /** The secret state: the counter DT, the vector V, and the last block given out. */
  datatype Seed = Seed(dt: seq<nat>, v: Block, last: Block)

  /** A context: the seed, the current block, how much of it has been used, and whether a
      reset is needed. */
  datatype Context = Context(seed: Seed, rand: Block, valid: nat, needReset: bool)

  // ------------------------------------------------------------- the block stream

  /** The counter, most significant byte first, plus one. */
  function Inc(dt: seq<nat>): seq<nat> {
    if dt == [] then []
    else if dt[|dt| - 1] == 255 then Inc(dt[..|dt| - 1]) + [0]
    else dt[..|dt| - 1] + [dt[|dt| - 1] + 1]
  }

  /** The block that comes next. */
  function Output(c: Cipher, s: Seed): Block {
    c.encrypt(c.xor(c.encrypt(s.dt), s.v))
  }

  /** The seed after it. */
  function Stepped(c: Cipher, s: Seed): Seed {
    Seed(c.count(s.dt), c.encrypt(c.xor(Output(c, s), c.encrypt(s.dt))), Output(c, s))
  }

  function Blocks(c: Cipher, s: Seed, n: nat): seq<Block>
    decreases n
  {
    if n == 0 then [] else [Output(c, s)] + Blocks(c, Stepped(c, s), n - 1)
  }

  function SeedAfter(c: Cipher, s: Seed, n: nat): Seed
    decreases n
  {
    if n == 0 then s else SeedAfter(c, Stepped(c, s), n - 1)
  }

  function Flat(bs: seq<Block>): seq<nat> { if bs == [] then [] else bs[0] + Flat(bs[1..]) }

  // -------------------------------------------------------------- reading bytes

  /** _get_more_prng_bytes when the repetition check passes. */
  function Refilled(c: Cipher, x: Context): Context {
    Context(Stepped(c, x.seed), Output(c, x.seed), 0, x.needReset)
  }

  /** The context with a byte to give. */
  function Ready(c: Cipher, x: Context): Context { if x.valid >= SIZE then Refilled(c, x) else x }

  /** What a read gives: the bytes, whether every repetition check passed, and the context
      it leaves. */
  datatype Run = Run(bytes: seq<nat>, passes: bool, after: Context)

  function Then(bytes: seq<nat>, passes: bool, r: Run): Run { Run(bytes + r.bytes, passes && r.passes, r.after) }

  /** One byte: what it is, whether the check passed if there was one, and what is left. */
  datatype Step = Step(byte: nat, ok: bool, next: Context)

  function ByteStep(c: Cipher, x: Context): Step {
    var y := Ready(c, x);
    Step(if y.valid < |y.rand| then y.rand[y.valid] else 0, x.valid >= SIZE ==> Output(c, x.seed) != x.seed.last,
         y.(valid := y.valid + 1))
  }

  type Stepper = Context -> Step

  /** The stepper reads bytes with this cipher. */
  ghost predicate Reads(step: Stepper, c: Cipher) { forall x: Context {:trigger step(x)} :: step(x) == ByteStep(c, x) }

  /** Reading n bytes, one at a time. */
  ghost function Read(step: Stepper, x: Context, n: nat): Run
    decreases n
  {
    if n == 0 then Run([], true, x) else Then([step(x).byte], step(x).ok, Read(step, step(x).next, n - 1))
  }

  predicate ContextOk(x: Context) { |x.rand| == SIZE && x.valid <= SIZE }

  // --------------------------------------------------------- what the stream promises

  lemma ThenThen(a: seq<nat>, p: bool, b: seq<nat>, q: bool, r: Run)
    ensures Then(a, p, Then(b, q, r)) == Then(a + b, p && q, r)
  {
    assert a + (b + r.bytes) == (a + b) + r.bytes;
  }

  /** A read gives as many bytes as it is of. */
  lemma {:induction false} ReadLength(step: Stepper, x: Context, n: nat)
    ensures |Read(step, x, n).bytes| == n
    decreases n
  {
    if n > 0 { ReadLength(step, step(x).next, n - 1); }
  }

  /** Reading n bytes and then m is reading n + m. */
  lemma {:induction false} ReadsCompose(step: Stepper, x: Context, n: nat, m: nat)
    ensures var r := Read(step, x, n); Read(step, x, n + m) == Then(r.bytes, r.passes, Read(step, r.after, m))
    decreases n
  {
    if n > 0 {
      ReadsCompose(step, step(x).next, n - 1, m);
      var r := Read(step, step(x).next, n - 1);
      ThenThen([step(x).byte], step(x).ok, r.bytes, r.passes, Read(step, r.after, m));
    }
  }

  /** Reads of these sizes, one after the other. */
  ghost function ReadAll(step: Stepper, x: Context, sizes: seq<nat>): Run
    decreases |sizes|
  {
    if sizes == [] then Run([], true, x)
    else
      var r := Read(step, x, sizes[0]);
      Then(r.bytes, r.passes, ReadAll(step, r.after, sizes[1..]))
  }

  function Sum(sizes: seq<nat>): nat { if sizes == [] then 0 else sizes[0] + Sum(sizes[1..]) }

  /** However the bytes are asked for, they are those of one read. */
  lemma {:induction false} ReadsAreOneRead(step: Stepper, x: Context, sizes: seq<nat>)
    ensures ReadAll(step, x, sizes) == Read(step, x, Sum(sizes))
    decreases |sizes|
  {
    if sizes != [] {
      ReadsAreOneRead(step, Read(step, x, sizes[0]).after, sizes[1..]);
      ReadsCompose(step, x, sizes[0], Sum(sizes[1..]));
    }
  }

  /** Within a block no check is made. */
  ghost predicate InBlock(step: Stepper) {
    forall x: Context {:trigger step(x)} ::
      ContextOk(x) && x.valid < SIZE ==> step(x) == Step(x.rand[x.valid], true, x.(valid := x.valid + 1))
  }

  lemma ReadsInBlock(step: Stepper, c: Cipher)
    requires Reads(step, c)
    ensures InBlock(step)
  {
  }

  lemma OneByte(step: Stepper, x: Context, n: nat)
    requires InBlock(step) && ContextOk(x) && x.valid < SIZE && n > 0
    ensures Read(step, x, n) == Then([x.rand[x.valid]], true, Read(step, x.(valid := x.valid + 1), n - 1))
  {
  }

  lemma ThenNothing(r: Run)
    ensures Then([], true, r) == r
  {
    assert [] + r.bytes == r.bytes;
  }

  lemma Slice(s: seq<nat>, i: nat, k: nat)
    requires k > 0 && i + k <= |s|
    ensures s[i..i + k] == [s[i]] + s[i + 1..i + k]
  {
  }

  /** A byte and the k - 1 behind it. */
  lemma ByteAndRest(s: seq<nat>, i: nat, k: nat, all: Run, part: Run, rest: Run)
    requires k > 0 && i + k <= |s|
    requires all == Then([s[i]], true, part) && part == Then(s[i + 1..i + k], true, rest)
    ensures all == Then(s[i..i + k], true, rest)
  {
    Slice(s, i, k);
    ThenThen([s[i]], true, s[i + 1..i + k], true, rest);
  }

  /** k bytes of the current block. */
  lemma {:induction false} WithinBlock(step: Stepper, x: Context, k: nat, n: nat)
    requires InBlock(step) && ContextOk(x) && x.valid + k <= SIZE && k <= n
    ensures Read(step, x, n) == Then(x.rand[x.valid..x.valid + k], true, Read(step, x.(valid := x.valid + k), n - k))
    decreases k
  {
    var y, r := x.(valid := x.valid + k), Read(step, x, n);
    if k == 0 {
      assert y == x && x.rand[x.valid..x.valid] == [];
      ThenNothing(r);
    } else {
      var x1 := x.(valid := x.valid + 1);
      OneByte(step, x, n);
      WithinBlock(step, x1, k - 1, n - 1);
      assert x1.(valid := x1.valid + (k - 1)) == y;
      ByteAndRest(x.rand, x.valid, k, r, Read(step, x1, n - 1), Read(step, y, n - k));
    }
  }

  /** Reading on past the end of a block. */
  lemma NextBlock(step: Stepper, c: Cipher, x: Context, n: nat)
    requires Reads(step, c) && CipherOk(c) && x.valid == SIZE && n > 0
    ensures Read(step, x, n) == Then([], Output(c, x.seed) != x.seed.last, Read(step, Refilled(c, x), n))
  {
    var y := Refilled(c, x);
    assert step(x).byte == step(y).byte && step(x).next == step(y).next && step(y).ok;
  }

  /** Reading past the current block. */
  lemma PastBlock(step: Stepper, c: Cipher, x: Context, n: nat)
    requires Reads(step, c) && CipherOk(c) && ContextOk(x) && n > SIZE - x.valid
    ensures Read(step, x, n).bytes == x.rand[x.valid..] + Read(step, Refilled(c, x), n - (SIZE - x.valid)).bytes
  {
    var here := SIZE - x.valid;
    ReadsInBlock(step, c);
    WithinBlock(step, x, here, n);
    NextBlock(step, c, x.(valid := SIZE), n - here);
    assert Refilled(c, x.(valid := SIZE)) == Refilled(c, x) && x.rand[x.valid..SIZE] == x.rand[x.valid..];
  }

  lemma PrefixAfter(a: seq<nat>, b: seq<nat>, c: seq<nat>)
    requires b <= c
    ensures a + b <= a + c
  {
  }

  /** What is read is what is left of the current block and then the block stream, n bytes
      of it. */
  lemma BytesAreTheStream(step: Stepper, c: Cipher, x: Context, n: nat, k: nat)
    requires Reads(step, c) && CipherOk(c) && ContextOk(x) && n <= SIZE - x.valid + SIZE * k
    ensures var stream := x.rand[x.valid..] + Flat(Blocks(c, x.seed, k));
            n <= |stream| && Read(step, x, n).bytes == stream[..n]
  {
    ReadLength(step, x, n);
    BytesAreAPrefix(step, c, x, n, k);
  }

  lemma {:induction false} BytesAreAPrefix(step: Stepper, c: Cipher, x: Context, n: nat, k: nat)
    requires Reads(step, c) && CipherOk(c) && ContextOk(x) && n <= SIZE - x.valid + SIZE * k
    ensures Read(step, x, n).bytes <= x.rand[x.valid..] + Flat(Blocks(c, x.seed, k))
    decreases k
  {
    var here := SIZE - x.valid;
    if n <= here {
      ReadsInBlock(step, c);
      WithinBlock(step, x, n, n);
      assert Read(step, x, n).bytes == x.rand[x.valid..x.valid + n];
    } else {
      var full := Refilled(c, x);
      PastBlock(step, c, x, n);
      BytesAreAPrefix(step, c, full, n - here, k - 1);
      StreamStarts(c, x.seed, k);
      assert full.rand[full.valid..] == Output(c, x.seed);
      PrefixAfter(x.rand[x.valid..], Read(step, full, n - here).bytes, Flat(Blocks(c, x.seed, k)));
    }
  }

  /** Reads of any sizes in any order give, put together, as many bytes as their sizes add
      up to, of what is left of the current block and the block stream. */
  lemma AllReadsAreTheStream(step: Stepper, c: Cipher, x: Context, sizes: seq<nat>, k: nat)
    requires Reads(step, c) && CipherOk(c) && ContextOk(x) && Sum(sizes) <= SIZE - x.valid + SIZE * k
    ensures var stream := x.rand[x.valid..] + Flat(Blocks(c, x.seed, k));
            Sum(sizes) <= |stream| && ReadAll(step, x, sizes).bytes == stream[..Sum(sizes)]
  {
    ReadsAreOneRead(step, x, sizes);
    BytesAreTheStream(step, c, x, Sum(sizes), k);
  }

  lemma StreamStarts(c: Cipher, s: Seed, k: nat)
    requires k > 0
    ensures Flat(Blocks(c, s, k)) == Output(c, s) + Flat(Blocks(c, Stepped(c, s), k - 1))
  {
    assert Blocks(c, s, k)[1..] == Blocks(c, Stepped(c, s), k - 1);
  }

  /** Consecutive blocks differ: if k new blocks are read through without a failed check,
      each differs from the one before it. */
  lemma {:induction false} BlocksDiffer(step: Stepper, c: Cipher, x: Context, k: nat)
    requires Reads(step, c) && CipherOk(c) && ContextOk(x) && x.valid == SIZE && Read(step, x, SIZE * k).passes
    ensures |Blocks(c, x.seed, k)| == k
    ensures forall i :: 0 <= i < k ==>
              Blocks(c, x.seed, k)[i] != if i == 0 then x.seed.last else Blocks(c, x.seed, k)[i - 1]
    decreases k
  {
    if k > 0 {
      NextBlock(step, c, x, SIZE * k);
      ReadsInBlock(step, c);
      var y := Refilled(c, x);
      WithinBlock(step, y, SIZE, SIZE * k);
      BlocksDiffer(step, c, y.(valid := SIZE), k - 1);
      var rest := Blocks(c, y.seed, k - 1);
      assert forall i :: 0 < i < k ==> Blocks(c, x.seed, k)[i] == rest[i - 1];
    }
  }

  // ------------------------------------------------------------------ the counter

  function Value(dt: seq<nat>): nat {
    if dt == [] then 0 else Value(dt[..|dt| - 1]) * 256 + dt[|dt| - 1]
  }

  function Power(n: nat): nat { if n == 0 then 1 else 256 * Power(n - 1) }

  predicate IsBytes(dt: seq<nat>) { forall i :: 0 <= i < |dt| ==> dt[i] < 256 }

  lemma {:induction false} IncCounts(dt: seq<nat>)
    requires IsBytes(dt)
    ensures IsBytes(Inc(dt)) && |Inc(dt)| == |dt| && Value(dt) < Power(|dt|)
    ensures Value(Inc(dt)) == if Value(dt) + 1 == Power(|dt|) then 0 else Value(dt) + 1
  {
    if dt != [] {
      var p := dt[..|dt| - 1];
      IncCounts(p);
      var r := Inc(dt);
      assert r[..|r| - 1] == if dt[|dt| - 1] == 255 then Inc(p) else p;
    }
  }

  lemma OneTurnMore(turns: nat, p: nat)
    ensures (turns + 1) * p == turns * p + p
  {
  }

  /** DT counts the blocks modulo 2^128: n blocks on, it has advanced by n less a whole
      number of turns. */
  lemma {:induction false} CounterCounts(c: Cipher, s: Seed, n: nat) returns (turns: nat)
    requires IsBytes(s.dt) && Counts(c)
    ensures var dt := SeedAfter(c, s, n).dt;
            |dt| == |s.dt| && Value(dt) < Power(|s.dt|) && Value(dt) + turns * Power(|s.dt|) == Value(s.dt) + n
    decreases n
  {
    IncCounts(s.dt);
    turns := 0;
    if n > 0 {
      turns := CounterCounts(c, Stepped(c, s), n - 1);
      if Value(s.dt) + 1 == Power(|s.dt|) {
        OneTurnMore(turns, Power(|s.dt|));
        turns := turns + 1;
      }
    }
  }
}
