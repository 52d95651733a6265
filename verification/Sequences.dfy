/** Lists of ids without repetition, and taking one out. */
module Sequences {

  function Drop(l: seq<nat>, x: nat): seq<nat> {
    if l == [] then [] else if l[0] == x then l[1..] else [l[0]] + Drop(l[1..], x)
  }

  ghost predicate NoDup(l: seq<nat>) { forall i, j :: 0 <= i < j < |l| ==> l[i] != l[j] }

  lemma {:induction false} DropIs(l: seq<nat>, x: nat)
    requires NoDup(l)
    ensures NoDup(Drop(l, x)) && (forall y :: y in Drop(l, x) <==> y in l && y != x)
    ensures |Drop(l, x)| == if x in l then |l| - 1 else |l|
    ensures l != [] && l[0] != x ==> Drop(l, x) != [] && Drop(l, x)[0] == l[0]
  {
    if l != [] {
      assert NoDup(l[1..]) && l[0] !in l[1..];
      assert forall y :: y in l <==> y == l[0] || y in l[1..];
      if l[0] != x {
        DropIs(l[1..], x);
        var d := Drop(l[1..], x);
        assert forall i :: 0 <= i < |d| ==> d[i] in d;
        assert forall y :: y in [l[0]] + d <==> y == l[0] || y in d;
      }
    }
  }

  lemma {:induction false} DropAbsent(l: seq<nat>, x: nat)
    requires x !in l
    ensures Drop(l, x) == l
  {
    if l != [] {
      assert l[0] in l;
      DropAbsent(l[1..], x);
    }
  }
}
