/** The parser of cryptomgr_schedule_probe as the loops it is made of; a pointer into the
    name is the rest of the string. */
module AlgNameParser {
  import opened Wrappers
  import opened AlgName

  /** A run of name characters, and whether one of them is not a digit. */
  method ScanName(s: string) returns (n: nat, notNum: bool)
    ensures n == Span(s) && notNum == !AllDigits(s[..n])
  {
    n, notNum := 0, false;
    while n < |s| && IsName(s[n])
      invariant 0 <= n <= |s| && forall i :: 0 <= i < n ==> IsName(s[i])
      invariant notNum == exists i :: 0 <= i < n && !IsDigit(s[i])
    {
      if !IsDigit(s[n]) {
        notNum := true;
      }
      n := n + 1;
    }
  }

  /** The loop that skips a group, counting the groups inside it. */
  method SkipGroup(s: string) returns (n: Option<nat>)
    ensures n == Skip(s, 0)
  {
    var i, recursion := 0, 0;
    assert s[0..] == s;
    while i < |s|
      invariant 0 <= i <= |s| && 0 <= recursion
      invariant Skip(s, 0) == Plus(i, Skip(s[i..], recursion))
    {
      assert s[i..][1..] == s[i + 1..];
      if s[i] == '(' {
        recursion := recursion + 1;
      } else if s[i] == ')' {
        if recursion == 0 {
          return Some(i + 1);
        }
        recursion := recursion - 1;
      }
      i := i + 1;
    }
    n := None;
  }

  /** One argument: its length and whether it is anything but a number. */
  method ScanArg(s: string) returns (n: Option<nat>, notNum: bool)
    ensures n == ArgLength(s) && (n.Some? ==> notNum == !AllDigits(s[..n.value]))
  {
    var k;
    k, notNum := ScanName(s);
    n := Some(k);
    if k < |s| && s[k] == '(' {
      var m := SkipGroup(s[k + 1..]);
      if m.None? {
        return None, true;
      }
      n, notNum := Some(k + 1 + m.value), true;
      assert s[..n.value][k] == '(';
    }
  }

  function Prepend(args: seq<Arg>, rest: Option<seq<Arg>>): Option<seq<Arg>> {
    if rest.None? then None else Some(args + rest.value)
  }

  lemma PrependStep(args: seq<Arg>, a: Arg, rest: Option<seq<Arg>>)
    ensures Prepend(args, Prepend([a], rest)) == Prepend(args + [a], rest)
  {
    if rest.Some? { assert args + ([a] + rest.value) == (args + [a]) + rest.value; }
  }

  lemma PrependNothing(r: Option<seq<Arg>>)
    ensures Prepend([], r) == r
  {
    if r.Some? { assert [] + r.value == r.value; }
  }

  /** What one round of the argument loop finds. */
  datatype Round = Bad | Last(arg: Arg) | More(arg: Arg, rest: string)

  /** The round says how the arguments from s on are parsed. */
  ghost predicate RoundOf(o: Round, s: string, i: nat) {
    && (o.Bad? ==> ParseArgs(ArgLength, s, i).None?)
    && (o.Last? ==> ParseArgs(ArgLength, s, i) == Some([o.arg]))
    && (o.More? ==> ParseArgs(ArgLength, s, i) == Prepend([o.arg], ParseArgs(ArgLength, o.rest, i + 1)))
  }

  /** `args` have been found and `rest` is left. */
  ghost predicate Scanned(s: string, args: seq<Arg>, rest: string) {
    ParseArgs(ArgLength, s, 0) == Prepend(args, ParseArgs(ArgLength, rest, |args|))
  }

  lemma ScannedOn(s: string, args: seq<Arg>, rest: string, o: Round)
    requires Scanned(s, args, rest) && RoundOf(o, rest, |args|)
    ensures o.Bad? ==> ParseArgs(ArgLength, s, 0).None?
    ensures o.Last? ==> ParseArgs(ArgLength, s, 0) == Some(args + [o.arg])
    ensures o.More? ==> Scanned(s, args + [o.arg], o.rest)
  {
    if o.More? { PrependStep(args, o.arg, ParseArgs(ArgLength, o.rest, |args| + 1)); }
  }

  /** One round: an argument and its separator. */
  method ScanRound(s: string, i: nat) returns (o: Round)
    ensures o.More? ==> |o.rest| < |s|
    ensures RoundOf(o, s, i)
  {
    var n, notNum := ScanArg(s);
    if n.None? || n.value == 0 || n.value == |s| {
      return Bad;
    }
    var a := if notNum then Alg(s[..n.value]) else Num(s[..n.value]);
    if i + 1 >= MAX_ATTRS {
      return Bad;
    }
    if s[n.value] == ')' {
      return Last(a);
    }
    o := if s[n.value] == ',' then More(a, s[n.value + 1..]) else Bad;
  }

  /** The loop over the arguments. */
  method ScanArgs(s: string) returns (r: Option<seq<Arg>>)
    ensures r == ParseArgs(ArgLength, s, 0)
  {
    var args: seq<Arg>, rest := [], s;
    PrependNothing(ParseArgs(ArgLength, s, 0));
    while true
      invariant Scanned(s, args, rest)
      decreases |rest|
    {
      var o := ScanRound(rest, |args|);
      ScannedOn(s, args, rest, o);
      match o
      case Bad => return None;
      case Last(a) => return Some(args + [a]);
      case More(a, more) =>
        args, rest := args + [a], more;
    }
  }

  /** cryptomgr_schedule_probe's view of a name. */
  method ParseName(s: string) returns (r: Option<Parsed>)
    ensures r == Parse(s)
  {
    var k, _ := ScanName(s);
    if k == 0 || k == |s| || s[k] != '(' {
      return None;
    }
    var args := ScanArgs(s[k + 1..]);
    r := if args.None? then None else Some(Parsed(s[..k], args.value));
  }
}
