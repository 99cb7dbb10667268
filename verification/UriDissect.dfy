/** Splitting an address string into host and service, by three regular expressions. */
module UriDissect {
  import opened Wrappers
  import opened Regex

  // ----- the regular expressions -----

  /** :// */
  const SEPARATOR: Re := Cat(Chr(Lit(':')), Cat(Chr(Lit('/')), Chr(Lit('/'))))
  /** /?.*$ */
  const PATH: Re := Cat(Opt(Chr(Lit('/'))), Cat(Star(Dot), Eol))
  /** ([^/]+)/?.*$ */
  const AUTHORITY: Re := Cat(Group(3, Plus(NotSlash)), PATH)
  /** ((^\w+)?://)?([^/]+)/?.*$ */
  const SERV: Re := Cat(Opt(Group(1, Cat(Opt(Group(2, Cat(Bol, Plus(Word)))), SEPARATOR))), AUTHORITY)
  /** (\d+$) */
  const DIGITS: Re := Group(2, Cat(Plus(Digit), Eol))
  /** \]:(\d+$) */
  const BRACKET_END: Re := Cat(Chr(Lit(']')), Cat(Chr(Lit(':')), DIGITS))
  /** ^\[(.*)\]:(\d+$) */
  const PORT_BRACKET: Re := Cat(Bol, Cat(Chr(Lit('[')), Cat(Group(1, Star(Dot)), BRACKET_END)))
  /** (^[^:]+):(\d+$) */
  const PORT: Re := Cat(Group(1, Cat(Bol, Plus(NotColon))), Cat(Chr(Lit(':')), DIGITS))

  // ----- what they match -----

  /** The end of the authority that begins at i, if it is not empty and no line break follows it. */
  function Authority(s: string, i: nat): (r: Option<nat>)
    requires i <= |s|
    ensures r.Some? ==> i < r.value <= |s|
  {
    var j := RunEnd(NotSlash, s, i);
    if j > i && RunEnd(Dot, s, j) == |s| then Some(j) else None
  }

  predicate SeparatorAt(s: string, i: nat)
  {
    i + 3 <= |s| && s[i] == ':' && s[i + 1] == '/' && s[i + 2] == '/'
  }

  lemma DotRunShrinks(s: string, m: nat, j: nat)
    requires m <= j <= |s| && RunEnd(Dot, s, m) == |s|
    ensures RunEnd(Dot, s, j) == |s|
  {
  }

  lemma MatchPath(s: string, i: nat, caps: Captures)
    requires i <= |s|
    ensures Match(Then(PATH, Done), s, i, caps) == if RunEnd(Dot, s, i) == |s| then Some(caps) else None
  {
    var rest := Then(Cat(Star(Dot), Eol), Done);
    forall m | i <= m <= |s|
      ensures Match(rest, s, m, caps) == if RunEnd(Dot, s, m) == |s| then Some(caps) else None
    {
      StarToEnd(Dot, s, m, caps);
    }
    var slash := Then(Chr(Lit('/')), rest);
    assert Match(slash, s, i, caps) == if i < |s| && s[i] == '/' then Match(rest, s, i + 1, caps) else None;
    assert Match(Then(PATH, Done), s, i, caps) == Match(Then(Opt(Chr(Lit('/'))), rest), s, i, caps);
  }

  lemma MatchAuthority(s: string, i: nat, caps: Captures)
    requires i <= |s|
    ensures Match(Then(AUTHORITY, Done), s, i, caps)
            == if Authority(s, i).Some? then Some(caps[3 := (i, Authority(s, i).value)]) else None
  {
    var close := Then(Close(3, i), Then(PATH, Done));
    forall m | i <= m <= |s|
      ensures Match(close, s, m, caps) == if RunEnd(Dot, s, m) == |s| then Some(caps[3 := (i, m)]) else None
    {
      MatchPath(s, m, caps[3 := (i, m)]);
    }
    var plus := Then(Plus(NotSlash), close);
    assert Match(Then(AUTHORITY, Done), s, i, caps) == Match(plus, s, i, caps) by {
      assert Match(Then(AUTHORITY, Done), s, i, caps)
          == Match(Then(Group(3, Plus(NotSlash)), Then(PATH, Done)), s, i, caps);
    }
    if i < |s| && s[i] != '/' {
      var j := RunEnd(NotSlash, s, i);
      assert j == RunEnd(NotSlash, s, i + 1);
      if RunEnd(Dot, s, j) == |s| {
        StarTakesLongest(NotSlash, close, s, i + 1, caps);
      } else {
        forall m | i + 1 <= m <= j ensures Match(close, s, m, caps).None? {
          if RunEnd(Dot, s, m) == |s| { DotRunShrinks(s, m, j); }
        }
        StarFails(NotSlash, close, s, i + 1, caps);
      }
    }
  }

  lemma MatchSeparator(r: Goal, s: string, i: nat, caps: Captures)
    requires i <= |s|
    ensures Match(Then(SEPARATOR, r), s, i, caps) == if SeparatorAt(s, i) then Match(r, s, i + 3, caps) else None
  {
    var slashes := Then(Cat(Chr(Lit('/')), Chr(Lit('/'))), r);
    var slash := Then(Chr(Lit('/')), r);
    assert Match(Then(SEPARATOR, r), s, i, caps) == Match(Then(Chr(Lit(':')), slashes), s, i, caps);
    if i < |s| && s[i] == ':' {
      assert Match(slashes, s, i + 1, caps) == Match(Then(Chr(Lit('/')), slash), s, i + 1, caps);
      if i + 1 < |s| && s[i + 1] == '/' {
        assert Match(Then(Chr(Lit('/')), slash), s, i + 1, caps) == Match(slash, s, i + 2, caps);
      }
    }
  }

  /** Groups 1 and 3 after the scheme, which ends at m. */
  lemma MatchAfterScheme(s: string, m: nat, caps: Captures)
    requires m <= |s|
    ensures Match(Then(SEPARATOR, Then(Close(1, 0), Then(AUTHORITY, Done))), s, m, caps)
            == if SeparatorAt(s, m) && Authority(s, m + 3).Some?
               then Some(caps[1 := (0, m + 3)][3 := (m + 3, Authority(s, m + 3).value)]) else None
  {
    MatchSeparator(Then(Close(1, 0), Then(AUTHORITY, Done)), s, m, caps);
    if SeparatorAt(s, m) {
      MatchAuthority(s, m + 3, caps[1 := (0, m + 3)]);
    }
  }

  /** The scheme is the longest run of word characters at the beginning, or missing. */
  lemma MatchScheme(s: string)
    ensures var rest := Then(SEPARATOR, Then(Close(1, 0), Then(AUTHORITY, Done)));
            var w := RunEnd(Word, s, 0);
            Match(Then(Opt(Group(2, Cat(Bol, Plus(Word)))), rest), s, 0, map[])
            == Match(rest, s, w, if w > 0 then map[2 := (0, w)] else map[])
  {
    var rest := Then(SEPARATOR, Then(Close(1, 0), Then(AUTHORITY, Done)));
    var w := RunEnd(Word, s, 0);
    var close := Then(Close(2, 0), rest);
    var plus := Then(Plus(Word), close);
    var group := Then(Group(2, Cat(Bol, Plus(Word))), rest);
    assert Match(group, s, 0, map[]) == Match(plus, s, 0, map[]) by {
      assert Match(group, s, 0, map[]) == Match(Then(Cat(Bol, Plus(Word)), close), s, 0, map[]);
      assert Match(Then(Cat(Bol, Plus(Word)), close), s, 0, map[]) == Match(Then(Bol, plus), s, 0, map[]);
    }
    if w > 0 {
      assert w == RunEnd(Word, s, 1);
      forall m | 1 <= m <= w ensures m != w ==> Match(close, s, m, map[]).None? {
        MatchAfterScheme(s, m, map[2 := (0, m)]);
      }
      StarEndsAt(Word, close, s, 1, map[], w);
    }
    MatchAfterScheme(s, 0, map[]);
  }

  /** What the first regular expression finds: the scheme, if any, and the authority. */
  function Groups(s: string): Option<Captures>
  {
    var w := RunEnd(Word, s, 0);
    if SeparatorAt(s, w) && Authority(s, w + 3).Some? then
      Some((if w > 0 then map[2 := (0, w)] else map[])[1 := (0, w + 3)][3 := (w + 3, Authority(s, w + 3).value)])
    else if Authority(s, 0).Some? then
      Some(map[3 := (0, Authority(s, 0).value)])
    else None
  }

  /** The groups of the first regular expression. */
  lemma MatchServ(s: string)
    ensures FullMatch(SERV, s) == Groups(s)
  {
    var w := RunEnd(Word, s, 0);
    var authority := Then(AUTHORITY, Done);
    var scheme := Cat(Opt(Group(2, Cat(Bol, Plus(Word)))), SEPARATOR);
    var with := Then(Group(1, scheme), authority);
    var inner := Then(Close(1, 0), authority);
    assert Match(with, s, 0, map[])
        == Match(Then(Opt(Group(2, Cat(Bol, Plus(Word)))), Then(SEPARATOR, inner)), s, 0, map[]) by {
      assert Match(with, s, 0, map[]) == Match(Then(scheme, inner), s, 0, map[]);
    }
    MatchScheme(s);
    MatchAfterScheme(s, w, if w > 0 then map[2 := (0, w)] else map[]);
    MatchAuthority(s, 0, map[]);
    assert FullMatch(SERV, s) == Match(Then(Opt(Group(1, scheme)), authority), s, 0, map[]);
  }

  // ----- host and port -----

  /** From here on s is a colon and a port number: digits to the end, at least one. */
  predicate PortAt(s: string, p: nat)
  {
    p + 1 < |s| && s[p] == ':' && forall m | p < m < |s| :: IsDigit(s[m])
  }

  lemma PortIsUnique(s: string, p: nat, q: nat)
    requires PortAt(s, p) && PortAt(s, q)
    ensures p == q
  {
  }

  lemma MatchDigits(s: string, i: nat, caps: Captures)
    requires i <= |s|
    ensures Match(Then(DIGITS, Done), s, i, caps)
            == if i < |s| && (forall m | i <= m < |s| :: IsDigit(s[m])) then Some(caps[2 := (i, |s|)]) else None
  {
    var close := Then(Eol, Then(Close(2, i), Done));
    forall m | i <= m <= |s|
      ensures Match(close, s, m, caps) == if m == |s| then Some(caps[2 := (i, |s|)]) else None
    {
      var caps' := caps[2 := (i, m)];
      assert Match(Then(Close(2, i), Done), s, m, caps) == Match(Done, s, m, caps');
      assert Match(close, s, m, caps) == if m == |s| then Match(Then(Close(2, i), Done), s, m, caps) else None;
    }
    var plus := Then(Plus(Digit), close);
    assert Match(Then(DIGITS, Done), s, i, caps) == Match(plus, s, i, caps) by {
      assert Match(Then(DIGITS, Done), s, i, caps)
          == Match(Then(Cat(Plus(Digit), Eol), Then(Close(2, i), Done)), s, i, caps);
    }
    if i < |s| && IsDigit(s[i]) {
      var j := RunEnd(Digit, s, i + 1);
      if j == |s| {
        StarTakesLongest(Digit, close, s, i + 1, caps);
      } else {
        StarFails(Digit, close, s, i + 1, caps);
      }
    }
  }

  lemma MatchPort(s: string, m: nat, caps: Captures)
    requires m <= |s|
    ensures Match(Then(Cat(Chr(Lit(':')), DIGITS), Done), s, m, caps)
            == if PortAt(s, m) then Some(caps[2 := (m + 1, |s|)]) else None
  {
    var digits := Then(DIGITS, Done);
    assert Match(Then(Cat(Chr(Lit(':')), DIGITS), Done), s, m, caps) == Match(Then(Chr(Lit(':')), digits), s, m, caps);
    if m < |s| {
      MatchDigits(s, m + 1, caps);
    }
  }

  lemma MatchBracketEnd(s: string, m: nat, caps: Captures)
    requires m <= |s|
    ensures Match(Then(BRACKET_END, Done), s, m, caps)
            == if m < |s| && s[m] == ']' && PortAt(s, m + 1) then Some(caps[2 := (m + 2, |s|)]) else None
  {
    var port := Then(Cat(Chr(Lit(':')), DIGITS), Done);
    assert Match(Then(BRACKET_END, Done), s, m, caps) == Match(Then(Chr(Lit(']')), port), s, m, caps);
    if m < |s| {
      MatchPort(s, m + 1, caps);
    }
  }

  /** [host]:port, the port's colon at p */
  predicate BracketedAt(s: string, p: nat)
  {
    PortAt(s, p) && p >= 2 && s[0] == '[' && s[p - 1] == ']' && forall m | 1 <= m < p - 1 :: !LineBreak(s[m])
  }

  /** host:port, the port's colon at p */
  predicate PlainAt(s: string, p: nat)
  {
    PortAt(s, p) && p >= 1 && forall m | 0 <= m < p :: s[m] != ':'
  }

  lemma RunReaches(k: Class, s: string, i: nat, e: nat)
    requires i <= e <= |s| && forall m | i <= m < e :: In(k, s[m])
    ensures e <= RunEnd(k, s, i)
  {
  }

  lemma BracketGoals(s: string)
    ensures var close := Then(Close(1, 1), Then(BRACKET_END, Done));
            FullMatch(PORT_BRACKET, s)
            == if |s| > 0 && s[0] == '[' then Match(Then(Star(Dot), close), s, 1, map[]) else None
  {
    var close := Then(Close(1, 1), Then(BRACKET_END, Done));
    var inside := Cat(Group(1, Star(Dot)), BRACKET_END);
    var bracket := Cat(Chr(Lit('[')), inside);
    assert FullMatch(PORT_BRACKET, s) == Match(Then(bracket, Done), s, 0, map[]) by {
      assert FullMatch(PORT_BRACKET, s) == Match(Then(Bol, Then(bracket, Done)), s, 0, map[]);
    }
    assert Match(Then(bracket, Done), s, 0, map[]) == Match(Then(Chr(Lit('[')), Then(inside, Done)), s, 0, map[]);
    if |s| > 0 {
      assert Match(Then(inside, Done), s, 1, map[])
          == Match(Then(Group(1, Star(Dot)), Then(BRACKET_END, Done)), s, 1, map[]);
    }
  }

  lemma MatchBracketed(s: string, p: nat)
    requires BracketedAt(s, p)
    ensures FullMatch(PORT_BRACKET, s) == Some(map[1 := (1, p - 1), 2 := (p + 1, |s|)])
  {
    var close := Then(Close(1, 1), Then(BRACKET_END, Done));
    BracketGoals(s);
    RunReaches(Dot, s, 1, p - 1);
    forall m | 1 <= m <= |s| ensures m != p - 1 ==> Match(close, s, m, map[]).None? {
      MatchBracketEnd(s, m, map[1 := (1, m)]);
    }
    StarEndsAt(Dot, close, s, 1, map[], p - 1);
    MatchBracketEnd(s, p - 1, map[1 := (1, p - 1)]);
  }

  lemma MatchNotBracketed(s: string)
    requires forall p | 0 <= p < |s| :: !BracketedAt(s, p)
    ensures FullMatch(PORT_BRACKET, s).None?
  {
    var close := Then(Close(1, 1), Then(BRACKET_END, Done));
    BracketGoals(s);
    if |s| > 0 && s[0] == '[' {
      forall m | 1 <= m <= RunEnd(Dot, s, 1) ensures Match(close, s, m, map[]).None? {
        MatchBracketEnd(s, m, map[1 := (1, m)]);
        if m + 1 < |s| {
          assert !BracketedAt(s, m + 1);
        }
      }
      StarFails(Dot, close, s, 1, map[]);
    }
  }

  lemma PlainGoals(s: string)
    ensures var close := Then(Close(1, 0), Then(Cat(Chr(Lit(':')), DIGITS), Done));
            FullMatch(PORT, s)
            == if |s| > 0 && s[0] != ':' then Match(Then(Star(NotColon), close), s, 1, map[]) else None
  {
    var port := Cat(Chr(Lit(':')), DIGITS);
    var close := Then(Close(1, 0), Then(port, Done));
    var group := Then(Group(1, Cat(Bol, Plus(NotColon))), Then(port, Done));
    assert FullMatch(PORT, s) == Match(group, s, 0, map[]);
    assert Match(group, s, 0, map[]) == Match(Then(Cat(Bol, Plus(NotColon)), close), s, 0, map[]);
    assert Match(Then(Cat(Bol, Plus(NotColon)), close), s, 0, map[])
        == Match(Then(Bol, Then(Plus(NotColon), close)), s, 0, map[]);
  }

  lemma MatchPlain(s: string, p: nat)
    requires PlainAt(s, p)
    ensures FullMatch(PORT, s) == Some(map[1 := (0, p), 2 := (p + 1, |s|)])
  {
    var close := Then(Close(1, 0), Then(Cat(Chr(Lit(':')), DIGITS), Done));
    PlainGoals(s);
    RunReaches(NotColon, s, 1, p);
    forall m | 1 <= m <= |s| ensures m != p ==> Match(close, s, m, map[]).None? {
      MatchPort(s, m, map[1 := (0, m)]);
    }
    StarEndsAt(NotColon, close, s, 1, map[], p);
    MatchPort(s, p, map[1 := (0, p)]);
  }

  lemma MatchNotPlain(s: string)
    requires forall p | 0 <= p < |s| :: !PlainAt(s, p)
    ensures FullMatch(PORT, s).None?
  {
    var close := Then(Close(1, 0), Then(Cat(Chr(Lit(':')), DIGITS), Done));
    PlainGoals(s);
    if |s| > 0 && s[0] != ':' {
      forall m | 1 <= m <= RunEnd(NotColon, s, 1) ensures Match(close, s, m, map[]).None? {
        MatchPort(s, m, map[1 := (0, m)]);
        if m < |s| {
          assert !PlainAt(s, m);
        }
      }
      StarFails(NotColon, close, s, 1, map[]);
    }
  }
}
