/** How many reads the deadline scheduler sends while a write waits: never more than a
    bound that depends on the tunables, and for all tunables some run sends that many. */
module DeadlineStarvation {
  import opened Wrappers
  import opened DeadlineModel
  import opened DeadlineProofs

  /** One batch more than writes_starved, or just writes_starved when there are no batches. */
  function MaxReads(c: Config): nat {
    if c.fifoBatch == 0 then c.writesStarved else (c.writesStarved + 1) * c.fifoBatch
  }

  /** Reads that can still be dispatched before a waiting write. */
  function Credit(c: Config, s: Deadline): int {
    if c.fifoBatch == 0 then c.writesStarved - s.starved
    else (c.writesStarved - s.starved) * c.fifoBatch + c.fifoBatch - s.batching
  }

  predicate WriteWaits(s: Deadline) { s.write.fifo != [] }

  /** A dispatch that prefers a read to a waiting write uses up credit. */
  lemma ReadCosts(c: Config, s: Deadline)
    requires Valid(c, s) && WriteWaits(s)
    ensures Selected(c, s).Sent?
    ensures !Selected(c, s).write ==> 0 <= Credit(c, Dispatch(c, s)) < Credit(c, s)
  {
    if !Selected(c, s).write {
      var b := c.fifoBatch;
      var left := c.writesStarved - s.starved;
      if Continues(c, s) {
        assert left * b >= 0;
      } else {
        assert (left - 1) * b == left * b - b;
        assert (left - 1) * b >= 0;
      }
    }
  }

  /** Nothing but a dispatch touches the counters. */
  lemma OthersKeepCredit(c: Config, s: Deadline, op: Op)
    requires !op.DispatchOne?
    ensures Credit(c, Apply(c, s, op)) == Credit(c, s)
  {
  }

  function Dispatches(run: seq<Op>): nat {
    if run == [] then 0 else (if run[0].DispatchOne? then 1 else 0) + Dispatches(run[1..])
  }

  /** A write waits at every dispatch call of the run. */
  predicate WriteAlwaysWaits(c: Config, s: Deadline, run: seq<Op>)
    decreases |run|
  {
    run != [] ==> (run[0].DispatchOne? ==> WriteWaits(s)) && WriteAlwaysWaits(c, Apply(c, s, run[0]), run[1..])
  }

  /** Some dispatch call of the run sends a write. */
  predicate SendsWrite(c: Config, s: Deadline, run: seq<Op>)
    decreases |run|
  {
    run != [] && ((run[0].DispatchOne? && Selected(c, s).Sent? && Selected(c, s).write)
                  || SendsWrite(c, Apply(c, s, run[0]), run[1..]))
  }

  lemma {:induction false} CreditRunsOut(c: Config, s: Deadline, run: seq<Op>)
    requires Valid(c, s) && IsRun(c, s, run) && WriteAlwaysWaits(c, s, run) && !SendsWrite(c, s, run)
    ensures Dispatches(run) > 0 ==> Dispatches(run) <= Credit(c, s)
    decreases |run|
  {
    if run != [] {
      var s' := Apply(c, s, run[0]);
      StepValid(c, s, run[0]);
      CreditRunsOut(c, s', run[1..]);
      if run[0].DispatchOne? { ReadCosts(c, s); } else { OthersKeepCredit(c, s, run[0]); }
    }
  }

  lemma CreditIsBounded(c: Config, s: Deadline)
    requires Valid(c, s)
    ensures Credit(c, s) <= MaxReads(c)
  {
    assert (c.writesStarved - s.starved) * c.fifoBatch <= c.writesStarved * c.fifoBatch;
  }

  /** A run from a reachable state throughout which a write waits. */
  ghost predicate Waiting(c: Config, before: seq<Op>, run: seq<Op>) {
    && IsRun(c, Init(), before)
    && var s := After(c, Init(), before); IsRun(c, s, run) && WriteAlwaysWaits(c, s, run)
  }

  /** The starvation bound, from any reachable state and whatever adds, merges, alias
      dispatches and clock ticks come between the dispatch calls. */
  lemma StarvationBound(c: Config, before: seq<Op>, run: seq<Op>)
    requires Waiting(c, before, run) && Dispatches(run) > MaxReads(c)
    ensures SendsWrite(c, After(c, Init(), before), run)
  {
    var s := After(c, Init(), before);
    InitValid(c);
    RunValid(c, Init(), before);
    CreditIsBounded(c, s);
    if !SendsWrite(c, s, run) { CreditRunsOut(c, s, run); }
  }

  // ----------------------------------------------- reads that go out one by one

  /** A write waits, nothing has expired, and from the second node on there are at least
      n reads in sector order, of which the first is next_rq. */
  ghost predicate Ready(c: Config, s: Deadline, n: nat) {
    && Valid(c, s) && WriteWaits(s) && s.now == 0 && s.write.next.None?
    && n < |s.read.tree|
    && (n > 0 ==> s.read.next == Some(s.read.tree[1].id))
  }

  lemma FirstTwoDiffer(t: seq<Node>)
    requires Sorted(t) && |t| >= 2
    ensures t[0].id != t[1].id
  {
    assert t[1] in t[1..];
  }

  lemma ReadSelected(c: Config, s: Deadline, n: nat)
    requires Ready(c, s, n) && 0 < n <= Credit(c, s)
    ensures Selected(c, s) == Sent(false, s.read.tree[1].id) && Credit(c, Dispatch(c, s)) == Credit(c, s) - 1
  {
    FifoEmptyIff(s.read, s.now + c.readExpire);
    var left := c.writesStarved - s.starved;
    if c.fifoBatch > 0 && s.batching == c.fifoBatch {
      assert left * c.fifoBatch > 0;
      assert (left - 1) * c.fifoBatch == left * c.fifoBatch - c.fifoBatch;
    }
  }

  lemma ReadyAgain(c: Config, s: Deadline, n: nat)
    requires Ready(c, s, n) && 0 < n <= Credit(c, s)
    ensures Ready(c, Dispatch(c, s), n - 1)
  {
    ReadSelected(c, s, n);
    DispatchValid(c, s);
    var t, s' := s.read.tree, Dispatch(c, s);
    FirstTwoDiffer(t);
    assert RemoveNode(t, t[1].id) == [t[0]] + t[2..];
    assert s'.read.tree == [t[0]] + t[2..] && s'.write.fifo == s.write.fifo;
    if n > 1 { assert Latter(t, t[1].id) == Some(t[2].id); }
  }

  lemma {:induction false} ReadsGoOut(c: Config, s: Deadline, n: nat) returns (run: seq<Op>)
    requires Ready(c, s, n) && n <= Credit(c, s)
    ensures IsRun(c, s, run) && WriteAlwaysWaits(c, s, run) && !SendsWrite(c, s, run) && Dispatches(run) == n
    decreases n
  {
    if n == 0 {
      run := [];
    } else {
      ReadSelected(c, s, n);
      ReadyAgain(c, s, n);
      var rest := ReadsGoOut(c, Dispatch(c, s), n - 1);
      run := [DispatchOne] + rest;
      assert run[1..] == rest;
    }
  }

  // -------------------------------------------------- a run that leads up to them

  lemma {:induction false} RunThen(c: Config, s: Deadline, run: seq<Op>, op: Op)
    requires IsRun(c, s, run) && Enabled(After(c, s, run), op)
    ensures IsRun(c, s, run + [op]) && After(c, s, run + [op]) == Apply(c, After(c, s, run), op)
    decreases |run|
  {
    if run == [] {
      assert run + [op] == [op] && [op][1..] == [];
    } else {
      assert (run + [op])[1..] == run[1..] + [op];
      RunThen(c, Apply(c, s, run[0]), run[1..], op);
    }
  }

  /** `k` reads and nothing else, all ids and sectors from `low` to below `high`. */
  ghost predicate Filled(c: Config, s: Deadline, k: nat, low: nat, high: nat) {
    && Valid(c, s) && s.write == EMPTY_LANE && s.batching == 0 && s.starved == 0 && s.now == 0 && s.sent == []
    && s.read.next.None? && |s.read.tree| == k
    && forall m :: m in s.read.tree ==> low <= m.id < high && low <= m.pos
  }

  lemma FillOne(c: Config, s: Deadline, k: nat, low: nat, high: nat)
    requires Filled(c, s, k, low, high) && 0 < low <= high
    ensures Enabled(s, Add(false, Node(low - 1, low - 1)))
    ensures Filled(c, AddRequest(c, s, false, Node(low - 1, low - 1)), k + 1, low - 1, high)
  {
    var n := Node(low - 1, low - 1);
    TreeIdsAre(s.read.tree);
    NoAlias(s.read.tree, n.pos);
    assert s.read.tree != [] ==> s.read.tree[0] in s.read.tree;
    assert InsertNode(s.read.tree, n) == [n] + s.read.tree;
    AddValid(c, s, false, n);
  }

  lemma {:induction false} Fill(c: Config, k: nat, high: nat) returns (run: seq<Op>)
    requires k <= high
    ensures IsRun(c, Init(), run) && Filled(c, After(c, Init(), run), k, high - k, high)
    decreases k
  {
    if k == 0 {
      run := [];
      InitValid(c);
    } else {
      run := Fill(c, k - 1, high);
      var s, low := After(c, Init(), run), high - (k - 1);
      FillOne(c, s, k - 1, low, high);
      RunThen(c, Init(), run, Add(false, Node(low - 1, low - 1)));
      run := run + [Add(false, Node(low - 1, low - 1))];
    }
  }

  /** A read at the first sector takes the place of the one there, which goes out: next_rq
      is set, and no batch has been counted. */
  lemma AliasLeavesNext(c: Config, s: Deadline, k: nat, high: nat)
    requires Filled(c, s, k, 0, high) && k > 0
    ensures var n := Node(high, s.read.tree[0].pos);
            var s' := AddRequest(c, s, false, n);
            && Enabled(s, Add(false, n)) && Valid(c, s')
            && s'.write == EMPTY_LANE && s'.batching == 0 && s'.starved == 0 && s'.now == 0
            && |s'.read.tree| == k && (k > 1 ==> s'.read.next == Some(s'.read.tree[1].id))
            && s'.sent == [s.read.tree[0].id] && TreeIds(s'.read.tree) == TreeIds(s.read.tree[1..]) + {high}
  {
    var t := s.read.tree;
    var n := Node(high, t[0].pos);
    TreeIdsAre(t);
    AddValid(c, s, false, n);
    assert k > 1 ==> t[1] in t[1..];
    assert RemoveNode(t, t[0].id) == t[1..] && Alias(t, n.pos) == Some(t[0].id);
    assert InsertNode(t[1..], n) == [n] + t[1..];
    assert ([n] + t[1..])[1..] == t[1..];
  }

  lemma WriteArrives(c: Config, s: Deadline, id: nat)
    requires Valid(c, s) && s.write == EMPTY_LANE && Enabled(s, Add(true, Node(id, 0)))
    ensures var s' := AddRequest(c, s, true, Node(id, 0));
            && Valid(c, s') && WriteWaits(s') && s'.write.next.None? && s'.read == s.read
            && s'.now == s.now && s'.batching == s.batching && s'.starved == s.starved
  {
    AddValid(c, s, true, Node(id, 0));
  }

  lemma FullCredit(c: Config, s: Deadline)
    requires s.batching == 0 && s.starved == 0
    ensures Credit(c, s) == MaxReads(c)
  {
    assert (c.writesStarved + 1) * c.fifoBatch == c.writesStarved * c.fifoBatch + c.fifoBatch;
  }

  /** The write's id is new. */
  lemma WriteIsNew(c: Config, s: Deadline, k: nat, s1: Deadline)
    requires Filled(c, s, k, 0, k) && k > 0 && s1.write == EMPTY_LANE
    requires s1.sent == [s.read.tree[0].id] && TreeIds(s1.read.tree) == TreeIds(s.read.tree[1..]) + {k}
    ensures Enabled(s1, Add(true, Node(k + 1, 0)))
  {
    TreeIdsAre(s.read.tree[1..]);
    assert forall m :: m in s.read.tree[1..] ==> m in s.read.tree;
    assert s.read.tree[0] in s.read.tree;
  }

  /** From a queue of reads to one in which a write waits behind a set next_rq. */
  lemma AliasThenWrite(c: Config, before: seq<Op>, k: nat) returns (run: seq<Op>)
    requires IsRun(c, Init(), before) && Filled(c, After(c, Init(), before), k, 0, k) && k > 0
    ensures IsRun(c, Init(), run) && Ready(c, After(c, Init(), run), k - 1)
    ensures After(c, Init(), run).batching == 0 && After(c, Init(), run).starved == 0
  {
    var s := After(c, Init(), before);
    var n := Node(k, s.read.tree[0].pos);
    AliasLeavesNext(c, s, k, k);
    RunThen(c, Init(), before, Add(false, n));
    var s1 := AddRequest(c, s, false, n);
    WriteIsNew(c, s, k, s1);
    WriteArrives(c, s1, k + 1);
    RunThen(c, Init(), before + [Add(false, n)], Add(true, Node(k + 1, 0)));
    run := before + [Add(false, n)] + [Add(true, Node(k + 1, 0))];
  }

  /** From the start to a state with as much credit and as many reads as there can be. */
  lemma FromStart(c: Config) returns (before: seq<Op>)
    ensures IsRun(c, Init(), before)
    ensures Ready(c, After(c, Init(), before), MaxReads(c)) && Credit(c, After(c, Init(), before)) == MaxReads(c)
  {
    before := Fill(c, MaxReads(c) + 1, MaxReads(c) + 1);
    before := AliasThenWrite(c, before, MaxReads(c) + 1);
    FullCredit(c, After(c, Init(), before));
  }

  /** The bound is reached, for all tunables: an alias dispatch leaves a next_rq behind while
      the batch count is still zero, so a whole batch of reads goes out that is not counted
      as starving; after it come writes_starved more. */
  lemma BoundIsReached(c: Config) returns (before: seq<Op>, run: seq<Op>)
    ensures Waiting(c, before, run) && Dispatches(run) == MaxReads(c)
    ensures !SendsWrite(c, After(c, Init(), before), run)
  {
    before := FromStart(c);
    run := ReadsGoOut(c, After(c, Init(), before), MaxReads(c));
  }

  /** A number of dispatch calls is sure to send a waiting write exactly if it exceeds the
      bound. */
  lemma BoundIsExact(c: Config, n: nat)
    ensures (forall before, run :: Waiting(c, before, run) && Dispatches(run) >= n
                                   ==> SendsWrite(c, After(c, Init(), before), run))
            <==> n > MaxReads(c)
  {
    if n > MaxReads(c) {
      forall before, run | Waiting(c, before, run) && Dispatches(run) >= n
        ensures SendsWrite(c, After(c, Init(), before), run)
      {
        StarvationBound(c, before, run);
      }
    } else {
      var before, run := BoundIsReached(c);
    }
  }
}
