/** Algorithm names: the parser in cryptomgr_schedule_probe (crypto/algboss.c) undoes the
    printers of instance names (crypto_alloc_instance2, crypto_authenc_alloc). */
module AlgName {
  import opened Wrappers

  const MAX_ATTRS := 32

  predicate IsDigit(c: char) { '0' <= c <= '9' }

  /** isalnum, '-' or '_'. */
  predicate IsName(c: char) { IsDigit(c) || 'a' <= c <= 'z' || 'A' <= c <= 'Z' || c == '-' || c == '_' }

  /** An argument: an algorithm name, or the digits of a number. */
  datatype Arg = Alg(name: string) | Num(digits: string)

  datatype Parsed = Parsed(template: string, args: seq<Arg>)

  // -------------------------------------------------------------------- parsing

  /** How many name characters the string starts with. */
  function Span(s: string): (n: nat)
    ensures n <= |s| && (forall i :: 0 <= i < n ==> IsName(s[i])) && (n < |s| ==> !IsName(s[n]))
  {
    if s == [] || !IsName(s[0]) then 0 else 1 + Span(s[1..])
  }

  /** How many characters there are up to and including the parenthesis that closes a group
      with `depth` groups open inside it. */
  function Skip(s: string, depth: nat): (n: Option<nat>)
    ensures n.Some? ==> 0 < n.value <= |s|
  {
    if s == [] then None
    else if s[0] == ')' && depth == 0 then Some(1)
    else
      var rest := Skip(s[1..], if s[0] == '(' then depth + 1 else if s[0] == ')' then depth - 1 else depth);
      if rest.None? then None else Some(rest.value + 1)
  }

  /** The length of the argument the string starts with; None if a group is not closed. */
  function ArgLength(s: string): (n: Option<nat>)
    ensures n.Some? ==> n.value <= |s|
  {
    var k := Span(s);
    if k < |s| && s[k] == '(' then
      var m := Skip(s[k + 1..], 0);
      if m.None? then None else Some(k + 1 + m.value)
    else Some(k)
  }

  predicate AllDigits(s: string) { forall i :: 0 <= i < |s| ==> IsDigit(s[i]) }

  function Classified(s: string): Arg { if AllDigits(s) then Num(s) else Alg(s) }

  /** The arguments from the start of one on; `i` of them have been read, and `length` finds
      where one ends. */
  function ParseArgs(length: string -> Option<nat>, s: string, i: nat): Option<seq<Arg>>
    decreases |s|
  {
    var n := length(s);
    if n.None? || n.value == 0 || i + 1 >= MAX_ATTRS || n.value >= |s| then None
    else
      var arg, sep := Classified(s[..n.value]), s[n.value];
      if sep == ')' then Some([arg])
      else if sep != ',' then None
      else
        var rest := ParseArgs(length, s[n.value + 1..], i + 1);
        if rest.None? then None else Some([arg] + rest.value)
  }

  function Parse(s: string): Option<Parsed> {
    var k := Span(s);
    if k == 0 || k == |s| || s[k] != '(' then None
    else
      var args := ParseArgs(ArgLength, s[k + 1..], 0);
      if args.None? then None else Some(Parsed(s[..k], args.value))
  }

  // ------------------------------------------------------------------- printing

  /** An algorithm: a plain name (or number), or a template applied to arguments. */
  datatype Name = Plain(id: string) | Applied(template: string, args: seq<Name>)

  predicate IsId(s: string) { s != [] && forall i :: 0 <= i < |s| ==> IsName(s[i]) }

  /** A name with arguments at every template, no more than the parser takes. */
  predicate WellNamed(n: Name) {
    match n
    case Plain(id) => IsId(id)
    case Applied(t, args) => IsId(t) && 0 < |args| < MAX_ATTRS && forall i :: 0 <= i < |args| ==> WellNamed(args[i])
  }

  function Print(n: Name): string {
    match n
    case Plain(id) => id
    case Applied(t, args) => t + "(" + PrintArgs(args) + ")"
  }

  /** The arguments, separated by commas. */
  function PrintArgs(args: seq<Name>): string {
    if args == [] then "" else if |args| == 1 then Print(args[0]) else Print(args[0]) + "," + PrintArgs(args[1..])
  }

  // ------------------------------------------------------------------ the proofs

  lemma {:induction false} SpanIs(id: string, rest: string)
    requires (forall i :: 0 <= i < |id| ==> IsName(id[i])) && (rest == [] || !IsName(rest[0]))
    ensures Span(id + rest) == |id|
  {
    if id == [] {
      assert id + rest == rest;
    } else {
      assert (id + rest)[1..] == id[1..] + rest;
      SpanIs(id[1..], rest);
    }
  }

  function Plus(k: nat, n: Option<nat>): Option<nat> { if n.None? then None else Some(k + n.value) }

  /** Text without parentheses is passed over. */
  lemma {:induction false} SkipFlat(s: string, rest: string, depth: nat)
    requires forall i :: 0 <= i < |s| ==> s[i] != '(' && s[i] != ')'
    ensures Skip(s + rest, depth) == Plus(|s|, Skip(rest, depth))
  {
    if s == [] {
      assert s + rest == rest;
    } else {
      assert (s + rest)[1..] == s[1..] + rest;
      SkipFlat(s[1..], rest, depth);
    }
  }

  lemma SkipOpen(rest: string, depth: nat)
    ensures Skip("(" + rest, depth) == Plus(1, Skip(rest, depth + 1))
  {
    assert ("(" + rest)[1..] == rest;
  }

  lemma SkipClose(rest: string, depth: nat)
    ensures Skip(")" + rest, depth + 1) == Plus(1, Skip(rest, depth)) && Skip(")" + rest, 0) == Some(1)
  {
    assert (")" + rest)[1..] == rest;
  }

  lemma PrintIs(n: Name, rest: string)
    requires n.Applied?
    ensures Print(n) + rest == n.template + ("(" + (PrintArgs(n.args) + (")" + rest)))
    ensures |Print(n)| == |n.template| + |PrintArgs(n.args)| + 2
  {
  }

  lemma ArgsCons(args: seq<Name>, rest: string)
    requires |args| > 1
    ensures PrintArgs(args) + rest == Print(args[0]) + ("," + (PrintArgs(args[1..]) + rest))
    ensures |PrintArgs(args)| == |Print(args[0])| + 1 + |PrintArgs(args[1..])|
  {
    Regroup(Print(args[0]), ",", PrintArgs(args[1..]), rest);
  }

  lemma Regroup(a: string, b: string, c: string, d: string)
    ensures ((a + b) + c) + d == a + (b + (c + d))
  {
  }

  /** A printed name is passed over as a whole: its parentheses are balanced. */
  lemma {:induction false} PrintSkips(n: Name, rest: string, depth: nat)
    requires WellNamed(n)
    ensures Skip(Print(n) + rest, depth) == Plus(|Print(n)|, Skip(rest, depth))
    decreases n, 0
  {
    match n
    case Plain(id) => SkipFlat(id, rest, depth);
    case Applied(t, args) =>
      var inner := PrintArgs(args) + (")" + rest);
      PrintIs(n, rest);
      SkipFlat(t, "(" + inner, depth);
      SkipOpen(inner, depth);
      ArgsSkip(args, ")" + rest, depth + 1);
      SkipClose(rest, depth);
  }

  lemma {:induction false} ArgsSkip(args: seq<Name>, rest: string, depth: nat)
    requires forall i :: 0 <= i < |args| ==> WellNamed(args[i])
    ensures Skip(PrintArgs(args) + rest, depth) == Plus(|PrintArgs(args)|, Skip(rest, depth))
    decreases args, 1
  {
    if args == [] {
      assert "" + rest == rest;
    } else if |args| == 1 {
      PrintSkips(args[0], rest, depth);
    } else {
      var more := PrintArgs(args[1..]);
      ArgsCons(args, rest);
      PrintSkips(args[0], "," + (more + rest), depth);
      SkipFlat(",", more + rest, depth);
      ArgsSkip(args[1..], rest, depth);
    }
  }

  lemma GroupStarts(t: string, tail: string)
    ensures var s := t + ("(" + tail); s[..|t|] == t && s[|t|] == '(' && s[|t| + 1..] == tail
  {
  }

  lemma ArgWithGroup(t: string, tail: string, m: nat)
    requires IsId(t) && Skip(tail, 0) == Some(m)
    ensures ArgLength(t + ("(" + tail)) == Some(|t| + 1 + m)
  {
    SpanIs(t, "(" + tail);
    GroupStarts(t, tail);
  }

  /** The parser finds the end of a printed argument. */
  lemma ArgEnds(n: Name, rest: string)
    requires WellNamed(n) && rest != [] && (rest[0] == ',' || rest[0] == ')')
    ensures ArgLength(Print(n) + rest) == Some(|Print(n)|) && Print(n) != []
  {
    match n
    case Plain(id) => SpanIs(id, rest);
    case Applied(t, args) =>
      PrintIs(n, rest);
      ArgsSkip(args, ")" + rest, 0);
      SkipClose(rest, 0);
      ArgWithGroup(t, PrintArgs(args) + (")" + rest), |PrintArgs(args)| + 1);
  }

  /** Only plain names can be numbers. */
  predicate IsNumber(n: Name) { n.Plain? && AllDigits(n.id) }

  function ArgOf(n: Name): Arg { if IsNumber(n) then Num(Print(n)) else Alg(Print(n)) }

  lemma ClassifiedIs(n: Name)
    requires WellNamed(n)
    ensures Classified(Print(n)) == ArgOf(n) && Print(n) != []
  {
    if n.Applied? { assert Print(n)[|n.template|] == '('; }
  }

  function ArgsOf(args: seq<Name>): seq<Arg> { if args == [] then [] else [ArgOf(args[0])] + ArgsOf(args[1..]) }

  /** `length` finds the end of every printed argument. */
  ghost predicate Ends(length: string -> Option<nat>) {
    forall n: Name, rest: string {:trigger length(Print(n) + rest)} ::
      WellNamed(n) && rest != [] && (rest[0] == ',' || rest[0] == ')') ==> length(Print(n) + rest) == Some(|Print(n)|)
  }

  /** One argument and what follows it. */
  lemma ParseStep(length: string -> Option<nat>, first: string, sep: char, more: string, i: nat)
    requires first != [] && i + 1 < MAX_ATTRS && length(first + ([sep] + more)) == Some(|first|)
    ensures var s := first + ([sep] + more);
            && (sep == ')' ==> ParseArgs(length, s, i) == Some([Classified(first)]))
            && (sep == ',' && ParseArgs(length, more, i + 1).Some? ==>
                  ParseArgs(length, s, i) == Some([Classified(first)] + ParseArgs(length, more, i + 1).value))
  {
    var s := first + ([sep] + more);
    assert s[..|first|] == first && s[|first|] == sep && s[|first| + 1..] == more;
  }

  lemma FirstParses(length: string -> Option<nat>, n: Name, sep: char, more: string, i: nat)
    requires Ends(length) && WellNamed(n) && i + 1 < MAX_ATTRS && (sep == ',' || sep == ')')
    ensures var s := Print(n) + ([sep] + more);
            && (sep == ')' ==> ParseArgs(length, s, i) == Some([ArgOf(n)]))
            && (sep == ',' && ParseArgs(length, more, i + 1).Some? ==>
                  ParseArgs(length, s, i) == Some([ArgOf(n)] + ParseArgs(length, more, i + 1).value))
  {
    ClassifiedIs(n);
    assert length(Print(n) + ([sep] + more)) == Some(|Print(n)|);
    ParseStep(length, Print(n), sep, more, i);
  }

  lemma {:induction false} ArgsParse(length: string -> Option<nat>, args: seq<Name>, i: nat, rest: string)
    requires Ends(length) && args != [] && i + |args| < MAX_ATTRS && forall k :: 0 <= k < |args| ==> WellNamed(args[k])
    ensures ParseArgs(length, PrintArgs(args) + (")" + rest), i) == Some(ArgsOf(args))
    decreases |args|
  {
    if |args| == 1 {
      FirstParses(length, args[0], ')', rest, i);
      assert args[1..] == [] && ArgsOf(args) == [ArgOf(args[0])] && ")" == [')'];
    } else {
      var more := PrintArgs(args[1..]) + (")" + rest);
      ArgsCons(args, ")" + rest);
      ArgsParse(length, args[1..], i + 1, rest);
      FirstParses(length, args[0], ',', more, i);
    }
  }

  /** Parsing undoes printing: the root template and exactly the printed arguments, only
      all-digit leaves being numbers. */
  lemma ParseUndoesPrint(n: Name)
    requires WellNamed(n) && n.Applied?
    ensures Parse(Print(n)) == Some(Parsed(n.template, ArgsOf(n.args)))
  {
    var inner := PrintArgs(n.args) + (")" + "");
    PrintIs(n, "");
    assert Print(n) + "" == Print(n);
    SpanIs(n.template, "(" + inner);
    assert Print(n)[..|n.template|] == n.template && Print(n)[|n.template| + 1..] == inner;
    forall m: Name, rest: string | WellNamed(m) && rest != [] && (rest[0] == ',' || rest[0] == ')')
      ensures ArgLength(Print(m) + rest) == Some(|Print(m)|)
    {
      ArgEnds(m, rest);
    }
    ArgsParse(ArgLength, n.args, 0, "");
  }

  // --------------------------------------------------------------- the other way

  function Text(a: Arg): string { if a.Alg? then a.name else a.digits }

  function Joined(args: seq<Arg>): string {
    if args == [] then "" else if |args| == 1 then Text(args[0]) else Text(args[0]) + "," + Joined(args[1..])
  }

  ghost predicate ArgsOk(args: seq<Arg>) {
    forall k :: 0 <= k < |args| ==> Text(args[k]) != [] && (args[k].Num? <==> AllDigits(Text(args[k])))
  }

  lemma ArgsOkCons(a: Arg, rest: seq<Arg>)
    requires ArgsOk(rest) && Text(a) != [] && (a.Num? <==> AllDigits(Text(a)))
    ensures ArgsOk([a] + rest)
  {
  }

  lemma JoinedCons(a: Arg, rest: seq<Arg>, s: string)
    requires rest != [] && Joined(rest) + ")" <= s
    ensures Joined([a] + rest) + ")" <= Text(a) + ("," + s)
  {
    assert ([a] + rest)[1..] == rest;
    assert Joined([a] + rest) + ")" == Text(a) + ("," + (Joined(rest) + ")"));
  }

  lemma {:induction false} ArgsReprint(length: string -> Option<nat>, s: string, i: nat)
    requires ParseArgs(length, s, i).Some?
    ensures var args := ParseArgs(length, s, i).value;
            args != [] && i + |args| < MAX_ATTRS && Joined(args) + ")" <= s && ArgsOk(args)
    decreases |s|
  {
    var n := length(s).value;
    var text, more := s[..n], s[n + 1..];
    var a := Classified(text);
    assert s == text + ([s[n]] + more);
    if s[n] == ',' {
      ArgsReprint(length, more, i + 1);
      var rest := ParseArgs(length, more, i + 1).value;
      ArgsOkCons(a, rest);
      JoinedCons(a, rest, more);
    } else {
      ArgsOkCons(a, []);
      assert [a] + [] == [a];
    }
  }

  /** Whatever the parser accepts starts with its own answer printed again. */
  lemma PrintUndoesParse(s: string)
    requires Parse(s).Some?
    ensures var p := Parse(s).value;
            && IsId(p.template) && 0 < |p.args| < MAX_ATTRS && ArgsOk(p.args)
            && p.template + ("(" + (Joined(p.args) + ")")) <= s
  {
    WholeReprint(ArgLength, s, Span(s));
  }

  /** Behind the opening parenthesis at k. */
  lemma WholeReprint(length: string -> Option<nat>, s: string, k: nat)
    requires k < |s| && s[k] == '(' && ParseArgs(length, s[k + 1..], 0).Some?
    ensures var args := ParseArgs(length, s[k + 1..], 0).value;
            0 < |args| < MAX_ATTRS && ArgsOk(args) && s[..k] + ("(" + (Joined(args) + ")")) <= s
  {
    ArgsReprint(length, s[k + 1..], 0);
    Reassembled(s, k, Joined(ParseArgs(length, s[k + 1..], 0).value) + ")");
  }

  lemma Reassembled(s: string, k: nat, x: string)
    requires k < |s| && s[k] == '(' && x <= s[k + 1..]
    ensures s[..k] + ("(" + x) <= s
  {
    assert s == s[..k] + ("(" + s[k + 1..]);
  }
}
