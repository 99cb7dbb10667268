/** The part of ECMAScript regular expressions that the address parser uses: a backtracking matcher that prefers
    the longest repetition and takes an optional part if it can. */
module Regex {
  import opened Wrappers

  datatype Class = Word | Digit | NotSlash | NotColon | Dot | Lit(c: char)

  predicate LineBreak(c: char)
  {
    c == '\n' || c == '\r'
  }

  predicate IsDigit(c: char)
  {
    '0' <= c <= '9'
  }

  predicate IsWord(c: char)
  {
    'a' <= c <= 'z' || 'A' <= c <= 'Z' || IsDigit(c) || c == '_'
  }

  predicate In(k: Class, c: char)
  {
    match k
    case Word => IsWord(c)
    case Digit => IsDigit(c)
    case NotSlash => c != '/'
    case NotColon => c != ':'
    case Dot => !LineBreak(c)
    case Lit(d) => c == d
  }

  datatype Re =
    | Chr(k: Class)
    | Star(k: Class)
    | Plus(k: Class)
    | Cat(a: Re, b: Re)
    | Opt(a: Re)
    | Group(n: nat, a: Re)
    | Close(n: nat, from: nat) // end of a group that began at from
    | Bol
    | Eol

  /** What remains to be matched. */
  datatype Goal = Done | Then(re: Re, rest: Goal)

  /** Where each group matched. */
  type Captures = map<nat, (nat, nat)>

  function ReSize(re: Re): nat
  {
    match re
    case Cat(a, b) => 1 + ReSize(a) + ReSize(b)
    case Opt(a) => 1 + ReSize(a)
    case Group(_, a) => 3 + ReSize(a)
    case Plus(_) => 2
    case _ => 1
  }

  function GoalSize(g: Goal): nat
  {
    match g
    case Done => 0
    case Then(re, rest) => ReSize(re) + GoalSize(rest)
  }

  /** The first way, in ECMAScript's order of preference, to match the goal from position i to the end of s. */
  function Match(g: Goal, s: string, i: nat, caps: Captures): Option<Captures>
    requires i <= |s|
    decreases |s| - i, GoalSize(g)
  {
    match g
    case Done => if i == |s| then Some(caps) else None
    case Then(Chr(k), r) => if i < |s| && In(k, s[i]) then Match(r, s, i + 1, caps) else None
    case Then(Star(k), r) =>
      if i < |s| && In(k, s[i]) then
        var more := Match(g, s, i + 1, caps);
        if more.Some? then more else Match(r, s, i, caps)
      else Match(r, s, i, caps)
    case Then(Plus(k), r) => if i < |s| && In(k, s[i]) then Match(Then(Star(k), r), s, i + 1, caps) else None
    case Then(Cat(a, b), r) =>
      assert GoalSize(Then(a, Then(b, r))) == ReSize(a) + GoalSize(Then(b, r));
      Match(Then(a, Then(b, r)), s, i, caps)
    case Then(Opt(a), r) =>
      var with := Match(Then(a, r), s, i, caps);
      if with.Some? then with else Match(r, s, i, caps)
    case Then(Group(n, a), r) =>
      assert GoalSize(Then(a, Then(Close(n, i), r))) == ReSize(a) + GoalSize(Then(Close(n, i), r));
      Match(Then(a, Then(Close(n, i), r)), s, i, caps)
    case Then(Close(n, from), r) => Match(r, s, i, caps[n := (from, i)])
    case Then(Bol, r) => if i == 0 then Match(r, s, i, caps) else None
    case Then(Eol, r) => if i == |s| then Match(r, s, i, caps) else None
  }

  /** std::regex_match */
  function FullMatch(re: Re, s: string): Option<Captures>
  {
    Match(Then(re, Done), s, 0, map[])
  }

  // ----- repetitions -----

  /** Where the longest run of characters of a class ends. */
  function RunEnd(k: Class, s: string, i: nat): (j: nat)
    requires i <= |s|
    ensures i <= j <= |s|
    ensures forall m | i <= m < j :: In(k, s[m])
    ensures j < |s| ==> !In(k, s[j])
    decreases |s| - i
  {
    if i < |s| && In(k, s[i]) then RunEnd(k, s, i + 1) else i
  }

  lemma {:induction false} StarTakesLongest(k: Class, r: Goal, s: string, i: nat, caps: Captures)
    requires i <= |s| && Match(r, s, RunEnd(k, s, i), caps).Some?
    ensures Match(Then(Star(k), r), s, i, caps) == Match(r, s, RunEnd(k, s, i), caps)
    decreases |s| - i
  {
    if i < |s| && In(k, s[i]) {
      StarTakesLongest(k, r, s, i + 1, caps);
    }
  }

  /** If the rest can match from one position only, a repetition ends there. */
  lemma {:induction false} StarEndsAt(k: Class, r: Goal, s: string, i: nat, caps: Captures, e: nat)
    requires i <= |s| && i <= e <= RunEnd(k, s, i)
    requires forall m | i <= m <= RunEnd(k, s, i) && m != e :: Match(r, s, m, caps).None?
    ensures Match(Then(Star(k), r), s, i, caps) == Match(r, s, e, caps)
    decreases |s| - i
  {
    if i < |s| && In(k, s[i]) {
      if e == i {
        StarFails(k, r, s, i + 1, caps);
      } else {
        StarEndsAt(k, r, s, i + 1, caps, e);
      }
    }
  }

  lemma {:induction false} StarFails(k: Class, r: Goal, s: string, i: nat, caps: Captures)
    requires i <= |s|
    requires forall m | i <= m <= RunEnd(k, s, i) :: Match(r, s, m, caps).None?
    ensures Match(Then(Star(k), r), s, i, caps).None?
    decreases |s| - i
  {
    if i < |s| && In(k, s[i]) {
      StarFails(k, r, s, i + 1, caps);
    }
  }

  /** A final repetition of a class matches iff all the rest is of that class. */
  lemma {:induction false} StarToEnd(k: Class, s: string, i: nat, caps: Captures)
    requires i <= |s|
    ensures Match(Then(Star(k), Then(Eol, Done)), s, i, caps)
            == if RunEnd(k, s, i) == |s| then Some(caps) else None
    decreases |s| - i
  {
    assert Match(Then(Eol, Done), s, i, caps) == if i == |s| then Match(Done, s, i, caps) else None;
    if i < |s| && In(k, s[i]) {
      StarToEnd(k, s, i + 1, caps);
    }
  }
}
