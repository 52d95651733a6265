/** Where the requests of CFQ are: each step moves exactly the requests it is about, no queue
    gains or loses any other, and over every run the requests held are those inserted and
    neither dispatched nor absorbed. */
module CfqHistory {
  import opened Wrappers
  import opened Sequences
  import opened CfqModel
  import opened CfqProofs

  /** What each queue holds. */
  function Holdings(s: Cfq): map<nat, set<nat>> { map q | q in s.queues :: s.queues[q].fifo }

  function One(r: Option<nat>): set<nat> { if r.Some? then {r.value} else {} }

  /** One request leaves one queue. */
  ghost predicate Loses(h: map<nat, set<nat>>, h': map<nat, set<nat>>, q: nat, r: nat) {
    q in h && r in h[q] && h' == h[q := h[q] - {r}]
  }

  /** A round that is not refused sends the expired request, or else next_rq. */
  ghost function RoundSends(s: Cfq, op: Op): nat
    requires Valid(s) && op.DispatchRound? && Enabled(s, op) && SelectQueue(s, op.c).1.Some?
  {
    SelectedQueue(s, op.c);
    if op.fifo.Some? then op.fifo.value else s.queues[SelectQueue(s, op.c).1.value].next.value
  }

  ghost function ForcedSends(s: Cfq): nat
    requires Valid(s) && First(s).Some?
  {
    FirstIsBusy(s);
    s.queues[First(s).value].next.value
  }

  /** Resorting touches neither the requests nor next_rq. */
  lemma ResortSame(s: Cfq, q: nat, at: Option<nat>, found: bool)
    requires q in s.queues
    ensures var s' := Resort(s, q, at, found);
            && s'.queues.Keys == s.queues.Keys
            && forall x :: x in s.queues ==>
                 s'.queues[x].fifo == s.queues[x].fifo && s'.queues[x].next == s.queues[x].next
  {
  }

  /** The selected queue is one of the scheduler's and has a next_rq. */
  lemma SelectedQueue(s: Cfq, c: Choice)
    requires Valid(s) && ChoiceOk(s, c)
    ensures var (s1, q) := SelectQueue(s, c);
            && s1.queues.Keys == s.queues.Keys
            && (q.Some? ==> q.value in s.queues && s.queues[q.value].next.Some?
                            && s1.queues[q.value].next == s.queues[q.value].next)
  {
    SelectValid(s, c);
    if s.active.Some? { ResortSame(s, s.active.value, c.at, c.found); }
    var (s1, q) := SelectQueue(s, c);
    if q.Some? { assert QueueOk(s1.queues[q.value]); }
  }

  /** What a step does to the holdings: an alias is dispatched, a new request comes, an
      absorbed one goes, a round sends one request or none. */
  ghost predicate Moves(s: Cfq, op: Op, h': map<nat, set<nat>>)
    requires Valid(s) && Enabled(s, op)
  {
    var h := Holdings(s);
    match op
    case NewQueue(q) => h' == h[q := {}]
    case FreeQueue(q) => h' == h - {q} && h[q] == {}
    case Insert(q, r, e) => h' == h[q := h[q] - One(e.alias) + {r}]
    case FrontMerge(q, _, e) => h' == h[q := h[q] - One(e.alias)]
    case MergeReqs(q, gone, _) => Loses(h, h', q, gone)
    case DispatchRound(c, refused, _, _) =>
      var q := SelectQueue(s, c).1;
      if q.None? || refused then h' == h else Loses(h, h', q.value, RoundSends(s, op))
    case ForceOne(_) => Loses(h, h', First(s).value, ForcedSends(s))
    case Expire(_, _) => h' == h
    case PreemptBy(_, _, _, _) => h' == h
  }

  lemma RemovedLoses(s: Cfq, q: nat, r: nat, next: Option<nat>)
    requires q in s.queues && r in s.queues[q].fifo
    ensures Loses(Holdings(s), Holdings(Removed(s, q, r, next)), q, r)
  {
    assert Removed(s, q, r, next).queues.Keys == s.queues.Keys;
  }

  lemma ResortKeeps(s: Cfq, q: nat, at: Option<nat>, found: bool)
    requires q in s.queues
    ensures Holdings(Resort(s, q, at, found)) == Holdings(s)
  {
    assert Resort(s, q, at, found).queues.Keys == s.queues.Keys;
  }

  lemma ExpiredKeeps(s: Cfq, at: Option<nat>, found: bool)
    requires s.active.Some? ==> s.active.value in s.queues
    ensures Holdings(SliceExpired(s, at, found)) == Holdings(s)
  {
    if s.active.Some? { ResortKeeps(s, s.active.value, at, found); }
  }

  lemma SelectKeeps(s: Cfq, c: Choice)
    requires s.active.Some? ==> s.active.value in s.queues
    ensures Holdings(SelectQueue(s, c).0) == Holdings(s)
  {
    ExpiredKeeps(s, c.at, c.found);
  }

  /** Entering the sort_list changes no fifo. */
  lemma EnteredKeeps(s: Cfq, q: nat, r: nat, e: Entry)
    requires q in s.queues
    ensures Entered(s, q, r, e).queues.Keys == s.queues.Keys && Holdings(Entered(s, q, r, e)) == Holdings(s)
  {
    var o := s.queues[q];
    var s1 := s.(queues := s.queues[q := o.(sort := Put(o.sort, e.at, r))]);
    assert Holdings(s1) == Holdings(s);
    if !o.onRr {
      var s2 := s1.(queues := s1.queues[q := s1.queues[q].(onRr := true)], busy := s1.busy + 1);
      assert Holdings(s2) == Holdings(s1);
      ResortKeeps(s2, q, Some(e.treeAt), e.found);
    }
  }

  lemma AddRqRbHoldings(s: Cfq, q: nat, r: nat, e: Entry)
    requires q in s.queues && EntryOk(s, q, e) && (e.alias.Some? ==> e.alias.value in s.queues[q].fifo)
    ensures Holdings(AddRqRb(s, q, r, e)) == Holdings(s)[q := s.queues[q].fifo - One(e.alias)]
  {
    var s1 := Unaliased(s, q, e);
    if e.alias.Some? {
      RemovedLoses(s, q, e.alias.value, FindNext(s.queues[q].sort, e.alias.value, e.second));
    }
    assert e.alias.None? ==> s.queues[q].fifo - One(e.alias) == s.queues[q].fifo;
    assert Holdings(s1) == Holdings(s)[q := s.queues[q].fifo - One(e.alias)];
    EnteredKeeps(s1, q, r, e);
    PreferredKeeps(Entered(s1, q, r, e), q, r, e);
  }

  lemma PreferredKeeps(s: Cfq, q: nat, r: nat, e: Entry)
    requires q in s.queues
    ensures Holdings(Preferred(s, q, r, e)) == Holdings(s)
  {
  }

  lemma InsertHoldings(s: Cfq, q: nat, r: nat, e: Entry)
    requires Valid(s) && q in s.queues && EntryOk(s, q, e)
    ensures Holdings(InsertRequest(s, q, r, e)) == Holdings(s)[q := s.queues[q].fifo - One(e.alias) + {r}]
  {
    assert QueueOk(s.queues[q]);
    AddRqRbHoldings(s, q, r, e);
    var s1 := AddRqRb(s, q, r, e);
    FifoAdded(s1, q, r);
    assert Holdings(s1)[q] == s1.queues[q].fifo;
  }

  lemma FifoAdded(s: Cfq, q: nat, r: nat)
    requires q in s.queues
    ensures Holdings(s.(queues := s.queues[q := s.queues[q].(fifo := s.queues[q].fifo + {r})]))
            == Holdings(s)[q := Holdings(s)[q] + {r}]
  {
  }

  lemma RepositionHoldings(s: Cfq, q: nat, r: nat, e: Entry)
    requires Valid(s) && q in s.queues && r in s.queues[q].sort && EntryOk(Lifted(s, q, r), q, e)
    ensures Holdings(Reposition(s, q, r, e)) == Holdings(s)[q := s.queues[q].fifo - One(e.alias)]
  {
    assert QueueOk(s.queues[q]);
    DropIs(s.queues[q].sort, r);
    var s1 := Lifted(s, q, r);
    assert Holdings(s1) == Holdings(s);
    AddRqRbHoldings(s1, q, r, e);
  }

  lemma RoundMoves(s: Cfq, c: Choice, fifo: Option<nat>, second: bool)
    requires Valid(s) && Enabled(s, DispatchRound(c, false, fifo, second)) && SelectQueue(s, c).1.Some?
    ensures Loses(Holdings(s), Holdings(Round(s, c, false, fifo, second)), SelectQueue(s, c).1.value,
                  RoundSends(s, DispatchRound(c, false, fifo, second)))
  {
    SelectValid(s, c);
    SelectKeeps(s, c);
    SelectedQueue(s, c);
    var (s1, q) := SelectQueue(s, c);
    assert QueueOk(s1.queues[q.value]) && QueueOk(s.queues[q.value]);
    var r := RoundSends(s, DispatchRound(c, false, fifo, second));
    assert Holdings(s1)[q.value] == s1.queues[q.value].fifo;
    RemovedLoses(s1, q.value, r, FindNext(s1.queues[q.value].sort, r, second));
  }

  lemma ForcedMoves(s: Cfq, second: bool)
    requires Valid(s) && First(s).Some?
    ensures Loses(Holdings(s), Holdings(Forced(s, second)), First(s).value, ForcedSends(s))
  {
    FirstIsBusy(s);
    var q := First(s).value;
    assert QueueOk(s.queues[q]);
    RemovedLoses(s, q, ForcedSends(s), FindNext(s.queues[q].sort, ForcedSends(s), second));
  }

  lemma MergeMoves(s: Cfq, q: nat, gone: nat, second: bool)
    requires Valid(s) && q in s.queues && gone in s.queues[q].sort
    ensures Loses(Holdings(s), Holdings(RemoveRequest(s, q, gone, second)), q, gone)
  {
    var o := s.queues[q];
    assert QueueOk(o);
    RemovedLoses(s, q, gone, if o.next == Some(gone) then FindNext(o.sort, gone, second) else o.next);
  }

  /** Every operation moves exactly the requests it is about. */
  lemma StepMoves(s: Cfq, op: Op)
    requires Valid(s) && Enabled(s, op)
    ensures Moves(s, op, Holdings(Apply(s, op)))
  {
    match op
    case NewQueue(q) => NewMoves(s, q);
    case FreeQueue(q) => FreeMoves(s, q);
    case Insert(q, r, e) => InsertHoldings(s, q, r, e);
    case FrontMerge(q, r, e) => RepositionHoldings(s, q, r, e);
    case MergeReqs(q, gone, second) => MergeMoves(s, q, gone, second);
    case DispatchRound(c, refused, fifo, second) => SomeRound(s, c, refused, fifo, second);
    case ForceOne(second) => ForcedMoves(s, second);
    case Expire(at, found) => ExpiredKeeps(s, at, found);
    case PreemptBy(q, at, found, frontAt) => PreemptKeeps(s, q, at, found, frontAt);
  }

  lemma NewMoves(s: Cfq, q: nat)
    ensures Holdings(s.(queues := s.queues[q := EMPTY_QUEUE])) == Holdings(s)[q := {}]
  {
  }

  lemma FreeMoves(s: Cfq, q: nat)
    requires Valid(s) && q in s.queues && s.queues[q].sort == []
    ensures Holdings(s.(queues := s.queues - {q})) == Holdings(s) - {q} && Holdings(s)[q] == {}
  {
    assert QueueOk(s.queues[q]);
  }

  lemma PreemptKeeps(s: Cfq, q: nat, at: Option<nat>, found: bool, frontAt: Option<nat>)
    requires s.active.Some? ==> s.active.value in s.queues
    ensures Holdings(Preempt(s, q, at, found, frontAt)) == Holdings(s)
  {
    ExpiredKeeps(s, at, found);
    assert Preempt(s, q, at, found, frontAt).queues == SliceExpired(s, at, found).queues;
  }

  lemma SomeRound(s: Cfq, c: Choice, refused: bool, fifo: Option<nat>, second: bool)
    requires Valid(s) && Enabled(s, DispatchRound(c, refused, fifo, second))
    ensures var q, h' := SelectQueue(s, c).1, Holdings(Round(s, c, refused, fifo, second));
            if q.None? || refused then h' == Holdings(s)
            else Loses(Holdings(s), h', q.value, RoundSends(s, DispatchRound(c, refused, fifo, second)))
  {
    if SelectQueue(s, c).1.None? || refused {
      SelectValid(s, c);
      SelectKeeps(s, c);
    } else {
      RoundMoves(s, c, fifo, second);
    }
  }

  // ------------------------------------------------------------------ every run

  /** A request with the queue it is in. */
  type Place = (nat, nat)

  function Pairs(h: map<nat, set<nat>>): set<Place> { set q, r | q in h && r in h[q] :: (q, r) }

  function Held(s: Cfq): set<Place> { Pairs(Holdings(s)) }

  /** What a step sends to the dispatch queue. */
  ghost function Sends(s: Cfq, op: Op): set<Place>
    requires Valid(s) && Enabled(s, op)
  {
    match op
    case Insert(q, _, e) => PairOf(q, e.alias)
    case FrontMerge(q, _, e) => PairOf(q, e.alias)
    case DispatchRound(c, refused, _, _) =>
      var q := SelectQueue(s, c).1;
      if q.None? || refused then {} else {(q.value, RoundSends(s, op))}
    case ForceOne(_) => {(First(s).value, ForcedSends(s))}
    case _ => {}
  }

  function Inserts(op: Op): set<Place> { if op.Insert? then {(op.q, op.r)} else {} }

  function Absorbs(op: Op): set<Place> { if op.MergeReqs? then {(op.q, op.gone)} else {} }

  lemma PairsSet(h: map<nat, set<nat>>, q: nat, x: set<nat>)
    ensures forall a, b :: (a, b) in Pairs(h[q := x]) <==> if a == q then b in x else (a, b) in Pairs(h)
  {
  }

  lemma PairsLose(h: map<nat, set<nat>>, h': map<nat, set<nat>>, q: nat, r: nat)
    requires Loses(h, h', q, r)
    ensures (q, r) in Pairs(h) && Pairs(h') == Pairs(h) - {(q, r)}
  {
    PairsSet(h, q, h[q] - {r});
  }

  /** What a step adds and takes away, each thing once. */
  ghost predicate Books(s: Cfq, op: Op, held': set<Place>)
    requires Valid(s) && Enabled(s, op)
  {
    && held' == Held(s) - Sends(s, op) - Absorbs(op) + Inserts(op)
    && Sends(s, op) <= Held(s) && Absorbs(op) <= Held(s) && Sends(s, op) !! Absorbs(op) && Inserts(op) !! Held(s)
  }

  function PairOf(q: nat, r: Option<nat>): set<Place> { if r.Some? then {(q, r.value)} else {} }

  /** One queue loses a request it has and gains one it has not. */
  lemma PairsTrade(h: map<nat, set<nat>>, q: nat, out: Option<nat>, come: Option<nat>)
    requires q in h && (out.Some? ==> out.value in h[q]) && (come.Some? ==> come.value !in h[q])
    ensures Pairs(h[q := h[q] - One(out) + One(come)]) == Pairs(h) - PairOf(q, out) + PairOf(q, come)
    ensures PairOf(q, out) <= Pairs(h) && PairOf(q, come) !! Pairs(h)
  {
    PairsSet(h, q, h[q] - One(out) + One(come));
  }

  lemma InsertBooks(s: Cfq, q: nat, r: nat, e: Entry)
    requires Valid(s) && Enabled(s, Insert(q, r, e))
    ensures Books(s, Insert(q, r, e), Held(Apply(s, Insert(q, r, e))))
  {
    assert QueueOk(s.queues[q]);
    StepMoves(s, Insert(q, r, e));
    PairsTrade(Holdings(s), q, e.alias, Some(r));
  }

  lemma AliasIsHeld(s: Cfq, q: nat, r: nat, e: Entry)
    requires Valid(s) && Enabled(s, FrontMerge(q, r, e))
    ensures q in Holdings(s) && (e.alias.Some? ==> e.alias.value in Holdings(s)[q])
  {
    assert QueueOk(s.queues[q]);
    DropIs(s.queues[q].sort, r);
  }

  lemma FrontBooks(s: Cfq, q: nat, r: nat, e: Entry)
    requires Valid(s) && Enabled(s, FrontMerge(q, r, e))
    ensures Books(s, FrontMerge(q, r, e), Held(Apply(s, FrontMerge(q, r, e))))
  {
    AliasIsHeld(s, q, r, e);
    StepMoves(s, FrontMerge(q, r, e));
    PairsTrade(Holdings(s), q, e.alias, None);
    assert Holdings(s)[q] - One(e.alias) + {} == Holdings(s)[q] - One(e.alias);
  }

  lemma QueueBooks(s: Cfq, op: Op)
    requires Valid(s) && Enabled(s, op) && (op.NewQueue? || op.FreeQueue?)
    ensures Books(s, op, Held(Apply(s, op)))
  {
    StepMoves(s, op);
    if op.NewQueue? { PairsSet(Holdings(s), op.q, {}); }
  }

  lemma LeavingBooks(s: Cfq, op: Op)
    requires Valid(s) && Enabled(s, op) && (op.MergeReqs? || op.DispatchRound? || op.ForceOne?)
    ensures Books(s, op, Held(Apply(s, op)))
  {
    StepMoves(s, op);
    var h, h' := Holdings(s), Holdings(Apply(s, op));
    if op.MergeReqs? {
      PairsLose(h, h', op.q, op.gone);
    } else if op.ForceOne? {
      PairsLose(h, h', First(s).value, ForcedSends(s));
    } else if SelectQueue(s, op.c).1.Some? && !op.refused {
      PairsLose(h, h', SelectQueue(s, op.c).1.value, RoundSends(s, op));
    }
  }

  lemma StepBooks(s: Cfq, op: Op)
    requires Valid(s) && Enabled(s, op)
    ensures Books(s, op, Held(Apply(s, op)))
  {
    match op
    case NewQueue(_) => QueueBooks(s, op);
    case FreeQueue(_) => QueueBooks(s, op);
    case Insert(q, r, e) => InsertBooks(s, q, r, e);
    case FrontMerge(q, r, e) => FrontBooks(s, q, r, e);
    case MergeReqs(_, _, _) => LeavingBooks(s, op);
    case DispatchRound(_, _, _, _) => LeavingBooks(s, op);
    case ForceOne(_) => LeavingBooks(s, op);
    case Expire(_, _) => StepMoves(s, op);
    case PreemptBy(_, _, _, _) => StepMoves(s, op);
  }

  /** Everything a run has dispatched, absorbed and inserted. */
  ghost function SentIn(s: Cfq, run: seq<Op>, s': Cfq): multiset<Place>
    requires Valid(s) && Reaches(s, run, s')
    decreases |run|
  {
    if run == [] then multiset{}
    else
      StepValid(s, run[0]);
      multiset(Sends(s, run[0])) + SentIn(Apply(s, run[0]), run[1..], s')
  }

  function AbsorbedIn(run: seq<Op>): multiset<Place> {
    if run == [] then multiset{} else multiset(Absorbs(run[0])) + AbsorbedIn(run[1..])
  }

  function InsertedIn(run: seq<Op>): multiset<Place> {
    if run == [] then multiset{} else multiset(Inserts(run[0])) + InsertedIn(run[1..])
  }

  /** One step of the books, counted. */
  lemma Balance(held: set<Place>, held': set<Place>, sent: set<Place>, gone: set<Place>, new1: set<Place>)
    requires held' == held - sent - gone + new1 && sent <= held && gone <= held && sent !! gone && new1 !! held
    ensures multiset(held') + multiset(sent) + multiset(gone) == multiset(held) + multiset(new1)
  {
  }

  /** Over every run: what was held and what was inserted is held, dispatched or absorbed,
      each once. */
  lemma {:induction false} NoRequestIsLost(s: Cfq, run: seq<Op>, s': Cfq)
    requires Valid(s) && Reaches(s, run, s')
    ensures multiset(Held(s')) + SentIn(s, run, s') + AbsorbedIn(run) == multiset(Held(s)) + InsertedIn(run)
    decreases |run|
  {
    if run != [] {
      var s1 := Apply(s, run[0]);
      StepValid(s, run[0]);
      StepBooks(s, run[0]);
      NoRequestIsLost(s1, run[1..], s');
      Balance(Held(s), Held(s1), Sends(s, run[0]), Absorbs(run[0]), Inserts(run[0]));
      Sums(multiset(Held(s)), multiset(Held(s1)), multiset(Held(s')), multiset(Sends(s, run[0])),
           multiset(Absorbs(run[0])), multiset(Inserts(run[0])), SentIn(s1, run[1..], s'), AbsorbedIn(run[1..]),
           InsertedIn(run[1..]));
    }
  }

  /** The first step and the rest add up. */
  lemma Sums(h: multiset<Place>, h1: multiset<Place>, h': multiset<Place>, sent: multiset<Place>, gone: multiset<Place>,
             added: multiset<Place>, sents: multiset<Place>, gones: multiset<Place>, addeds: multiset<Place>)
    requires h1 + sent + gone == h + added && h' + sents + gones == h1 + addeds
    ensures h' + (sent + sents) + (gone + gones) == h + (added + addeds)
  {
    forall p: Place
      ensures (h' + (sent + sents) + (gone + gones))[p] == (h + (added + addeds))[p]
    {
      assert (h1 + sent + gone)[p] == (h + added)[p];
      assert (h' + sents + gones)[p] == (h1 + addeds)[p];
    }
  }
}
