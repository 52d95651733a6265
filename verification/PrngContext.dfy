/** prng_context as an object. */
module PrngContext {
  import opened Prng
  import opened Wrappers

  const EINVAL := 22

  function Zeros(): Block { seq(SIZE, _ => 0) }

  /** A context at the start of a stream. */
  function Fresh(dt: seq<nat>, v: Block, needReset: bool): Context {
    Context(Seed(dt, v, Zeros()), Zeros(), SIZE, needReset)
  }

  const WORD := 0x1_0000_0000

  /** An unsigned 32-bit value as an int. */
  function Signed(x: nat): int { if x < WORD / 2 then x else x - WORD }

  /** How many bytes the loop of get_prng_bytes gives for a byte_count: it is tested after
      it has been decreased, so zero means a whole turn. */
  function Wanted(byteCount: nat): nat { if byteCount == 0 then WORD else byteCount }

  /** Of a read of `want` bytes from x these have been given, and `count` are to come. */
  ghost predicate Got(step: Stepper, x: Context, want: nat, buf: seq<nat>, y: Context, count: nat) {
    Read(step, x, want) == Then(buf, true, Read(step, y, count))
  }

  /** What a round gives of a read of `count` bytes: bytes, or a refusal. */
  ghost predicate Gives(step: Stepper, y: Context, count: nat, ok: bool, out: seq<nat>, y': Context) {
    if ok then |out| <= count && Read(step, y, count) == Then(out, true, Read(step, y', count - |out|))
    else y'.needReset && !Read(step, y, count).passes
  }

  lemma GotMore(step: Stepper, x: Context, want: nat, buf: seq<nat>, y: Context, count: nat, out: seq<nat>, y': Context)
    requires Got(step, x, want, buf, y, count) && |out| <= count && Gives(step, y, count, true, out, y')
    ensures Got(step, x, want, buf + out, y', count - |out|)
  {
    ThenThen(buf, true, out, true, Read(step, y', count - |out|));
  }

  /** The bytes of the read, or a required reset exactly if a check fails. */
  ghost predicate Delivers(step: Stepper, x: Context, want: nat, ok: bool, buf: seq<nat>, y: Context) {
    var r := Read(step, x, want);
    ok == r.passes && if ok then Run(buf, true, y) == r else y.needReset
  }

  lemma GotAll(step: Stepper, x: Context, want: nat, buf: seq<nat>, y: Context)
    requires Got(step, x, want, buf, y, 0)
    ensures Delivers(step, x, want, true, buf, y)
  {
    assert buf + [] == buf;
  }

  lemma GotRefused(step: Stepper, x: Context, want: nat, buf: seq<nat>, y: Context, count: nat, out: seq<nat>,
                   y': Context)
    requires Got(step, x, want, buf, y, count) && Gives(step, y, count, false, out, y')
    ensures Delivers(step, x, want, false, buf, y')
  {
  }

  /** What get_prng_bytes answers: a refusal without effect, a failed repetition check, or
      bytes. */
  datatype Answer = Refused | Failed | Given(bytes: seq<nat>, after: Context)

  /** byte_count when the loop starts. */
  function ByteCount(fixedSize: bool, nbytes: nat): nat { if fixedSize then SIZE else nbytes % WORD }

  ghost function Answered(step: Stepper, x: Context, fixedSize: bool, nbytes: nat): Answer {
    var r := Read(step, x, Wanted(ByteCount(fixedSize, nbytes)));
    if x.needReset || (fixedSize && nbytes < SIZE) then Refused
    else if r.passes then Given(r.bytes, r.after)
    else Failed
  }

  /** When bytes are given, they are as many as were asked for exactly if that number is not
      zero and at most 2^32; a generator of fixed size gives a block, whatever was asked. */
  lemma GivesWhatIsAsked(step: Stepper, x: Context, fixedSize: bool, nbytes: nat)
    requires Answered(step, x, fixedSize, nbytes).Given?
    ensures var given := |Answered(step, x, fixedSize, nbytes).bytes|;
            && given == Wanted(ByteCount(fixedSize, nbytes))
            && (fixedSize ==> given == SIZE)
            && (given == nbytes <==> if fixedSize then nbytes == SIZE else 0 < nbytes <= WORD)
  {
    ReadLength(step, x, Wanted(ByteCount(fixedSize, nbytes)));
  }

  class Generator {
    const fixedSize: bool
    var cipher: Cipher
    var dt: seq<nat>
    var v: Block
    var lastRandData: Block
    var randData: Block
    var randDataValid: nat
    var needReset: bool

    ghost function View(): Context
      reads this
    {
      Context(Seed(dt, v, lastRandData), randData, randDataValid, needReset)
    }

    /** cprng_init: the defaults are in place, and the user has to reset before reading.
        PRNG_FIXED_SIZE is a parameter here; the driver tests it and never sets it. */
    constructor (cipher: Cipher, fixedSize: bool, defaultV: Block)
      ensures this.cipher == cipher && this.fixedSize == fixedSize
      ensures View() == Fresh(Zeros(), defaultV, true) && ContextOk(View())
    {
      this.cipher, this.fixedSize := cipher, fixedSize;
      dt, v := Zeros(), defaultV;
      lastRandData, randData := Zeros(), Zeros();
      randDataValid, needReset := SIZE, true;
    }

    /** reset_prng_context with the seed values to use; `keyed` is the cipher under the new
        key, if setting the key succeeds.  Then the stream starts anew; otherwise the
        context stays unusable. */
    method Reset(keyed: Option<Cipher>, seedDt: seq<nat>, seedV: Block) returns (err: int)
      modifies this
      ensures View() == Fresh(seedDt, seedV, keyed.None?) && ContextOk(View())
      ensures cipher == (if keyed.Some? then keyed.value else old(cipher)) && (err == 0 <==> keyed.Some?)
    {
      needReset := true;
      v, dt := seedV, seedDt;
      randData, lastRandData := Zeros(), Zeros();
      randDataValid := SIZE;
      if keyed.None? {
        return -EINVAL;
      }
      cipher := keyed.value;
      err := 0;
      needReset := false;
    }

    /** The counter loop at the end of _get_more_prng_bytes. */
    method Count()
      requires IsBytes(dt)
      modifies this`dt
      ensures dt == Inc(old(dt))
    {
      var i := |dt|;
      ghost var done: seq<nat> := [];
      assert old(dt)[..i] == old(dt) && Inc(old(dt)) + done == Inc(old(dt));
      while i > 0
        invariant 0 <= i <= |dt| == |old(dt)| && dt == old(dt)[..i] + done
        invariant Inc(old(dt)) == Inc(old(dt)[..i]) + done
        decreases i
      {
        i := i - 1;
        var b := (dt[i] + 1) % 256;
        ghost var p := old(dt)[..i + 1];
        assert p[..i] == old(dt)[..i] && p[i] == old(dt)[i] == dt[i];
        dt := dt[i := b];
        if b != 0 {
          assert dt == (p[..i] + [b]) + done;
          return;
        }
        done := [0] + done;
      }
    }

    /** _get_more_prng_bytes. */
    method GetMore() returns (ok: bool)
      requires CipherOk(cipher) && Counts(cipher) && ContextOk(View()) && IsBytes(dt)
      modifies this`dt, this`v, this`lastRandData, this`randData, this`randDataValid, this`needReset
      ensures ok == (Output(cipher, old(View()).seed) != old(View()).seed.last)
      ensures ok ==> View() == Refilled(cipher, old(View())) && ContextOk(View()) && IsBytes(dt)
      ensures !ok ==> needReset
    {
      var i := cipher.encrypt(dt);
      randData := cipher.encrypt(cipher.xor(i, v));
      if randData == lastRandData {
        needReset := true;
        return false;
      }
      lastRandData := randData;
      v := cipher.encrypt(cipher.xor(randData, i));
      IncCounts(dt);
      Count();
      randDataValid := 0;
      ok := true;
    }

    /** empty_rbuf: bytes of the current block until it or the request is used up. */
    method CopyBytes(count: nat) returns (out: seq<nat>)
      requires ContextOk(View())
      modifies this`randDataValid
      ensures |out| == (if count < SIZE - old(randDataValid) then count else SIZE - old(randDataValid))
      ensures randDataValid == old(randDataValid) + |out| && ContextOk(View())
      ensures out == randData[old(randDataValid)..randDataValid]
    {
      out := [];
      while randDataValid < SIZE && |out| < count
        invariant old(randDataValid) <= randDataValid <= SIZE && |out| <= count
        invariant randDataValid == old(randDataValid) + |out| && out == randData[old(randDataValid)..randDataValid]
        decreases SIZE - randDataValid
      {
        out := out + [randData[randDataValid]];
        randDataValid := randDataValid + 1;
      }
    }

    /** A block or what is needed of it, from a context with bytes to give. */
    method Take(count: nat) returns (out: seq<nat>)
      requires ContextOk(View()) && randDataValid < SIZE && count > 0
      modifies this`randDataValid
      ensures 0 < |out| <= count && randDataValid == old(randDataValid) + |out| && ContextOk(View())
      ensures out == randData[old(randDataValid)..randDataValid]
    {
      if count < SIZE || randDataValid > 0 {
        out := CopyBytes(count);
      } else {
        out := randData;
        randDataValid := randDataValid + SIZE;
      }
    }

    /** One round of get_prng_bytes: a new block if needed, then bytes from it. */
    method TakeMore(ghost step: Stepper, count: nat) returns (ok: bool, out: seq<nat>)
      requires Reads(step, cipher) && CipherOk(cipher) && Counts(cipher) && ContextOk(View()) && IsBytes(dt)
      requires count > 0
      modifies this`dt, this`v, this`lastRandData, this`randData, this`randDataValid, this`needReset
      ensures ok ==> ContextOk(View()) && IsBytes(dt) && 0 < |out| <= count
      ensures Gives(step, old(View()), count, ok, out, View())
    {
      out := [];
      ok := MakeReady(step, count);
      if ok {
        ReadsInBlock(step, cipher);
        out := TakeRead(step, count);
      }
    }

    /** Bytes of the current block, as a read of the stream. */
    method TakeRead(ghost step: Stepper, count: nat) returns (out: seq<nat>)
      requires InBlock(step) && ContextOk(View()) && randDataValid < SIZE && count > 0
      modifies this`randDataValid
      ensures ContextOk(View()) && 0 < |out| <= count
      ensures Read(step, old(View()), count) == Then(out, true, Read(step, View(), count - |out|))
    {
      ghost var y := View();
      out := Take(count);
      WithinBlock(step, y, |out|, count);
      assert View() == y.(valid := y.valid + |out|);
    }

    /** A new block when the current one is used up. */
    method MakeReady(ghost step: Stepper, count: nat) returns (ok: bool)
      requires Reads(step, cipher) && CipherOk(cipher) && Counts(cipher) && ContextOk(View()) && IsBytes(dt)
      requires count > 0
      modifies this`dt, this`v, this`lastRandData, this`randData, this`randDataValid, this`needReset
      ensures !ok ==> needReset && !Read(step, old(View()), count).passes
      ensures ok ==> ContextOk(View()) && IsBytes(dt) && randDataValid < SIZE
                     && Read(step, old(View()), count) == Read(step, View(), count)
    {
      ok := true;
      if randDataValid == SIZE {
        NextBlock(step, cipher, View(), count);
        ThenNothing(Read(step, Refilled(cipher, View()), count));
        ok := GetMore();
      }
    }

    /** The loop of get_prng_bytes. */
    method Fill(ghost step: Stepper, want: nat) returns (ok: bool, buf: seq<nat>)
      requires Reads(step, cipher) && CipherOk(cipher) && Counts(cipher) && ContextOk(View()) && IsBytes(dt)
      modifies this`dt, this`v, this`lastRandData, this`randData, this`randDataValid, this`needReset
      ensures Delivers(step, old(View()), want, ok, buf, View())
    {
      ghost var x := View();
      var count: nat := want;
      buf := [];
      ThenNothing(Read(step, x, want));
      while count > 0
        invariant ContextOk(View()) && IsBytes(dt) && Got(step, x, want, buf, View(), count)
        decreases count
      {
        ghost var y := View();
        var out;
        ok, out := TakeMore(step, count);
        if !ok {
          GotRefused(step, x, want, buf, y, count, out, View());
          return;
        }
        GotMore(step, x, want, buf, y, count, out, View());
        count := count - |out|;
        buf := buf + out;
      }
      GotAll(step, x, want, buf, View());
      ok := true;
    }

    /** get_prng_bytes; byte_count has 32 bits.  If no repetition check fails the bytes are
        those of the stream; otherwise nothing of it is given out and a reset is needed. */
    method GetBytes(ghost step: Stepper, nbytes: nat) returns (err: int, buf: seq<nat>)
      requires Reads(step, cipher) && CipherOk(cipher) && Counts(cipher) && ContextOk(View()) && IsBytes(dt)
      modifies this`dt, this`v, this`lastRandData, this`randData, this`randDataValid, this`needReset
      ensures match Answered(step, old(View()), fixedSize, nbytes)
              case Refused => err == -EINVAL && View() == old(View())
              case Failed => err == -EINVAL && needReset && buf == seq(nbytes, _ => 0)
              case Given(bytes, after) =>
                err == Signed(ByteCount(fixedSize, nbytes)) && buf == bytes && View() == after
      ensures Answered(step, old(View()), fixedSize, nbytes).Given? ==>
                && |buf| == Wanted(ByteCount(fixedSize, nbytes))
                && (|buf| == nbytes <==> if fixedSize then nbytes == SIZE else 0 < nbytes <= WORD)
    {
      if Answered(step, View(), fixedSize, nbytes).Given? {
        GivesWhatIsAsked(step, View(), fixedSize, nbytes);
      }
      buf := [];
      if needReset || (fixedSize && nbytes < SIZE) {
        return -EINVAL, [];
      }
      var count := ByteCount(fixedSize, nbytes);
      var ok;
      ok, buf := Fill(step, Wanted(count));
      if !ok {
        return -EINVAL, seq(nbytes, _ => 0);
      }
      err := Signed(count);
    }
  }

  // ------------------------------------------------------------ a read of zero bytes

  /** The bits of a or b, not of both. */
  function XorByte(a: nat, b: nat): nat {
    if a == 0 then b else if b == 0 then a else 2 * XorByte(a / 2, b / 2) + (a % 2 + b % 2) % 2
  }

  function XorBlock(a: Block, b: Block): Block {
    if a == [] || b == [] then [] else [XorByte(a[0], b[0])] + XorBlock(a[1..], b[1..])
  }

  /** The permutation that changes nothing, as a cipher. */
  function Plain(): Cipher {
    Cipher(x => if |x| == SIZE then x else Zeros(), (a, b) => XorBlock(a, b), x => Inc(x))
  }

  lemma {:induction false} XorZero(a: Block, n: nat)
    requires |a| == n
    ensures XorBlock(a, seq(n, _ => 0)) == a
  {
    if n > 0 {
      assert seq(n, _ => 0)[1..] == seq(n - 1, _ => 0);
      XorZero(a[1..], n - 1);
    }
  }

  lemma {:induction false} XorByteSelf(a: nat)
    ensures XorByte(a, a) == 0
  {
    if a > 0 { XorByteSelf(a / 2); }
  }

  lemma {:induction false} XorSelf(a: Block)
    ensures XorBlock(a, a) == seq(|a|, _ => 0)
  {
    if a != [] {
      XorByteSelf(a[0]);
      XorSelf(a[1..]);
      assert seq(|a|, _ => 0) == [0] + seq(|a| - 1, _ => 0);
    }
  }

  /** With that cipher and V zero the stream is the counter. */
  ghost predicate Counting(x: Context) {
    && ContextOk(x) && |x.seed.dt| == SIZE && IsBytes(x.seed.dt) && x.seed.v == Zeros() && x.seed.dt != x.seed.last
  }

  lemma CountingOutput(s: Seed)
    requires |s.dt| == SIZE && s.v == Zeros()
    ensures Output(Plain(), s) == s.dt && Stepped(Plain(), s) == Seed(Inc(s.dt), Zeros(), s.dt)
  {
    XorZero(s.dt, SIZE);
    XorSelf(s.dt);
  }

  lemma IncChanges(dt: seq<nat>)
    requires |dt| == SIZE && IsBytes(dt)
    ensures |Inc(dt)| == SIZE && IsBytes(Inc(dt)) && Inc(dt) != dt
  {
    IncCounts(dt);
    assert Power(1) == 256 && Power(SIZE) == 256 * Power(SIZE - 1);
  }

  lemma CountingStep(x: Context)
    requires Counting(x)
    ensures ByteStep(Plain(), x).ok && Counting(ByteStep(Plain(), x).next)
    ensures ByteStep(Plain(), x).next.needReset == x.needReset
  {
    CountingOutput(x.seed);
    IncChanges(x.seed.dt);
  }

  lemma {:induction false} CountingPasses(step: Stepper, x: Context, n: nat)
    requires Reads(step, Plain()) && Counting(x)
    ensures Read(step, x, n).passes
    decreases n
  {
    if n > 0 {
      CountingStep(x);
      CountingPasses(step, step(x).next, n - 1);
    }
  }

  /** A usable generator that is asked for no bytes and gives 2^32. */
  lemma ZeroIsNotGiven() returns (c: Cipher, step: Stepper, x: Context)
    ensures Reads(step, c) && CipherOk(c) && Counts(c) && ContextOk(x) && IsBytes(x.seed.dt) && !x.needReset
    ensures Answered(step, x, false, 0).Given? && |Answered(step, x, false, 0).bytes| == WORD
  {
    c := Plain();
    step := y => ByteStep(Plain(), y);
    x := Fresh(seq(SIZE, _ => 1), Zeros(), false);
    assert x.seed.dt[0] != x.seed.last[0];
    CountingPasses(step, x, WORD);
    GivesWhatIsAsked(step, x, false, 0);
  }
}
