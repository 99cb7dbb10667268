/** Printing an address and splitting address strings: the round trip, and what a path does to it. */
module AddressText {
  import opened Wrappers
  import opened Regex
  import opened UriDissect

  // ----- numbers -----

  function Value(digits: string): int
  {
    if digits == "" then 0
    else 10 * Value(digits[..|digits| - 1]) + (digits[|digits| - 1] as int - '0' as int)
  }

  const LLONG_MAX: int := 0x7fff_ffff_ffff_ffff
  const PORT_MAX: int := 65535

  datatype UriError = NoMatch | NotALongLong | PortOutOfRange

  /** CheckServiceNumericOutOfRange of a service that is all digits, with an optional sign. */
  function CheckService(serv: string): Option<UriError>
  {
    var negative := serv != "" && serv[0] == '-';
    var port := if negative then -Value(serv[1..]) else Value(serv);
    if port < -LLONG_MAX - 1 || port > LLONG_MAX then Some(NotALongLong)
    else if port < 0 || port > PORT_MAX then Some(PortOutOfRange)
    else None
  }

  // ----- UriDissect -----

  datatype Uri = Uri(host: string, serv: string, numericServ: bool)

  /** A submatch as a string; empty if the group did not take part. */
  function Text(s: string, groups: Captures, n: nat): string
  {
    if n in groups && groups[n].0 <= groups[n].1 <= |s| then s[groups[n].0..groups[n].1] else ""
  }

  function Checked(host: string, serv: string): Result<Uri, UriError>
  {
    match CheckService(serv)
    case Some(e) => Failure(e)
    case None => Success(Uri(host, serv, true))
  }

  /** The second half: the authority, and the service given by the scheme. */
  function HostServ(authority: string, serv: string): Result<Uri, UriError>
  {
    var bracketed := FullMatch(PORT_BRACKET, authority);
    var groups := if bracketed.Some? then bracketed else FullMatch(PORT, authority);
    match groups
    case Some(g) => Checked(Text(authority, g, 1), Text(authority, g, 2))
    case None => Success(Uri(authority, serv, false))
  }

  function Dissect(uri: string): Result<Uri, UriError>
  {
    match FullMatch(SERV, uri)
    case Some(g) => HostServ(Text(uri, g, 3), Text(uri, g, 2))
    case None => Failure(NoMatch)
  }

  lemma BracketedHost(a: string, p: nat, serv: string)
    requires BracketedAt(a, p)
    ensures HostServ(a, serv) == Checked(a[1..p - 1], a[p + 1..])
  {
    MatchBracketed(a, p);
    assert a[p + 1..|a|] == a[p + 1..];
  }

  lemma PlainHost(a: string, p: nat, serv: string)
    requires PlainAt(a, p) && !BracketedAt(a, p)
    ensures HostServ(a, serv) == Checked(a[..p], a[p + 1..])
  {
    forall q | 0 <= q < |a| ensures !BracketedAt(a, q) {
      if PortAt(a, q) { PortIsUnique(a, p, q); }
    }
    MatchNotBracketed(a);
    MatchPlain(a, p);
    assert a[0..p] == a[..p] && a[p + 1..|a|] == a[p + 1..];
  }

  lemma BareHost(a: string, serv: string)
    requires forall p | 0 <= p < |a| :: !BracketedAt(a, p) && !PlainAt(a, p)
    ensures HostServ(a, serv) == Success(Uri(a, serv, false))
  {
    MatchNotBracketed(a);
    MatchNotPlain(a);
  }

  /** A numeric port in the authority always overrides the service given by the scheme. */
  lemma PortOverridesScheme(a: string, p: nat, serv: string)
    requires BracketedAt(a, p) || PlainAt(a, p)
    ensures HostServ(a, serv) == Checked(if BracketedAt(a, p) then a[1..p - 1] else a[..p], a[p + 1..])
  {
    if BracketedAt(a, p) {
      BracketedHost(a, p, serv);
    } else {
      PlainHost(a, p, serv);
    }
  }

  lemma RunEndIs(k: Class, s: string, i: nat, e: nat)
    requires i <= e <= |s| && (forall m | i <= m < e :: In(k, s[m])) && (e < |s| ==> !In(k, s[e]))
    ensures RunEnd(k, s, i) == e
  {
  }

  predicate NoBreaks(s: string)
  {
    forall m | 0 <= m < |s| :: s[m] != '\n' && s[m] != '\r'
  }

  predicate Words(s: string)
  {
    forall m | 0 <= m < |s| ::
      'a' <= s[m] <= 'z' || 'A' <= s[m] <= 'Z' || '0' <= s[m] <= '9' || s[m] == '_'
  }

  lemma AuthorityIs(s: string, i: nat, e: nat)
    requires i < e <= |s| && (forall m | i <= m < e :: s[m] != '/') && (e < |s| ==> s[e] == '/')
    requires NoBreaks(s[e..])
    ensures Authority(s, i) == Some(e)
  {
  }

  /** scheme://authority, scheme://authority/path; the path has no line break. */
  lemma DissectWithScheme(scheme: string, authority: string, rest: string)
    requires Words(scheme) && authority != "" && '/' !in authority
    requires (rest == "" || rest[0] == '/') && NoBreaks(rest)
    ensures Dissect(scheme + "://" + authority + rest) == HostServ(authority, scheme)
  {
    var uri := scheme + "://" + authority + rest;
    var w, i := |scheme|, |scheme| + 3;
    var e := i + |authority|;
    assert uri[..w] == scheme && uri[w..i] == "://" && uri[i..e] == authority && uri[e..] == rest;
    RunEndIs(Word, uri, 0, w);
    assert SeparatorAt(uri, w) by {
      assert uri[w] == uri[w..i][0] && uri[w + 1] == uri[w..i][1] && uri[w + 2] == uri[w..i][2];
    }
    forall m | i <= m < e ensures uri[m] != '/' { assert uri[m] == authority[m - i]; }
    AuthorityIs(uri, i, e);
    MatchServ(uri);
  }

  /** Without a scheme, the part before the first slash. */
  lemma DissectWithoutScheme(authority: string, rest: string)
    requires authority != "" && '/' !in authority
    requires (rest == "" || rest[0] == '/') && NoBreaks(rest)
    requires var uri, w := authority + rest, RunEnd(Word, authority + rest, 0);
             SeparatorAt(uri, w) ==> Authority(uri, w + 3).None?
    ensures Dissect(authority + rest) == HostServ(authority, "")
  {
    var uri, e := authority + rest, |authority|;
    forall m | 0 <= m < e ensures uri[m] != '/' { assert uri[m] == authority[m]; }
    assert uri[e..] == rest;
    AuthorityIs(uri, 0, e);
    MatchServ(uri);
    assert uri[0..e] == authority;
  }

  // ----- the port -----

  /** The authority with a port, and the host in it. */
  predicate PortAndHost(a: string, p: nat, host: string)
  {
    || (BracketedAt(a, p) && host == a[1..p - 1])
    || (PlainAt(a, p) && !BracketedAt(a, p) && host == a[..p])
  }

  /** Which ports are accepted, and what else is said of the others. */
  predicate Ranged(r: Result<Uri, UriError>, host: string, port: string)
  {
    && (Value(port) <= 65535 <==> r == Success(Uri(host, port, true)))
    && (65535 < Value(port) <= 0x7fff_ffff_ffff_ffff <==> r == Failure(PortOutOfRange))
    && (0x7fff_ffff_ffff_ffff < Value(port) <==> r == Failure(NotALongLong))
  }

  /** A port is accepted iff it is at most 65535; the number in the text, however long, decides. */
  lemma PortRange(a: string, p: nat, host: string, serv: string)
    requires PortAndHost(a, p, host)
    ensures Ranged(HostServ(a, serv), host, a[p + 1..])
  {
    PortOverridesScheme(a, p, serv);
    var port := a[p + 1..];
    forall m | 0 <= m < |port| ensures IsDigit(port[m]) { assert port[m] == a[p + 1 + m]; }
    DigitsAreNotNegative(port);
  }

  /** The same for whole addresses, with and without a scheme and a path. */
  lemma DissectPortRange(a: string, p: nat, host: string, rest: string, scheme: string)
    requires PortAndHost(a, p, host) && '/' !in a && Words(scheme)
    requires (rest == "" || rest[0] == '/') && NoBreaks(rest)
    ensures Ranged(Dissect(a + rest), host, a[p + 1..])
    ensures Ranged(Dissect(scheme + "://" + a + rest), host, a[p + 1..])
  {
    PortRange(a, p, host, "");
    PortRange(a, p, host, scheme);
    DissectWithScheme(scheme, a, rest);
    var uri := a + rest;
    assert forall m | 0 <= m < |a| :: uri[m] == a[m] && a[m] in a;
    assert IsDigit(a[|a| - 1]);
    assert |rest| > 0 ==> uri[|a|] == '/';
    DissectWithoutScheme(a, rest);
  }

  /** An address is refused as a whole iff it has no authority, neither after a scheme nor at the beginning. */
  lemma NoMatchIff(uri: string)
    ensures Dissect(uri) == Failure(NoMatch) <==>
            var w := RunEnd(Word, uri, 0);
            !(SeparatorAt(uri, w) && Authority(uri, w + 3).Some?) && Authority(uri, 0).None?
  {
    MatchServ(uri);
    if Groups(uri).Some? {
      OwnErrors(Text(uri, Groups(uri).value, 3), Text(uri, Groups(uri).value, 2));
    }
  }

  lemma OwnErrors(a: string, serv: string)
    ensures HostServ(a, serv) != Failure(NoMatch)
  {
    if p :| 0 <= p < |a| && (BracketedAt(a, p) || PlainAt(a, p)) {
      PortOverridesScheme(a, p, serv);
    } else {
      BareHost(a, serv);
    }
  }

  // ----- the path -----

  /** The case where a path is taken for an authority: a scheme-less "word:" followed by "//" and more. */
  predicate Swallowed(h: string, path: string)
  {
    h != "" && h[|h| - 1] == ':' && Words(h[..|h| - 1]) && |path| >= 2 && path[0] == '/' && path[1] != '/'
  }

  /** The part of a path up to its next slash. */
  function Segment(path: string): string
  {
    path[..RunEnd(NotSlash, path, 0)]
  }

  lemma SeparatorNeedsSlashes(h: string, path: string)
    requires h != "" && '/' !in h && NoBreaks(path)
    requires var uri, w := h + "/" + path, RunEnd(Word, h + "/" + path, 0);
             SeparatorAt(uri, w) && Authority(uri, w + 3).Some?
    ensures Swallowed(h, path)
  {
    var uri, w := h + "/" + path, RunEnd(Word, h + "/" + path, 0);
    assert uri[..|h|] == h && uri[|h|] == '/' && uri[|h| + 1..] == path;
    assert forall m | 0 <= m < |h| :: uri[m] == h[m] && h[m] in h;
    assert w <= |h| by {
      assert !IsWord(uri[|h|]);
    }
    assert w + 1 == |h|;
    assert uri[w] == h[w];
    forall m | 0 <= m < w ensures IsWord(h[m]) { assert uri[m] == h[m]; }
    assert uri[w + 2] == path[0] && uri[w + 3] == path[1];
  }

  lemma DissectSwallowed(h: string, path: string)
    requires h != "" && '/' !in h && NoBreaks(path) && Swallowed(h, path)
    ensures Dissect(h + "/" + path) == HostServ(Segment(path[1..]), h[..|h| - 1])
    ensures Dissect(h) == Success(Uri(h, "", false))
  {
    var scheme, tail := h[..|h| - 1], path[1..];
    var e := RunEnd(NotSlash, tail, 0);
    var rest := tail[e..];
    assert Segment(tail) + rest == tail;
    assert h + "/" + path == scheme + "://" + Segment(tail) + rest;
    forall m | 0 <= m < |rest| ensures !LineBreak(rest[m]) { assert rest[m] == path[1 + e + m]; }
    assert tail[0] == path[1];
    RunReaches(NotSlash, tail, 0, 1);
    DissectWithScheme(scheme, Segment(tail), rest);

    assert h + "" == h;
    forall m | 0 <= m < |h| - 1 ensures h[m] != ':' { assert IsWord(h[..|h| - 1][m]); }
    RunEndIs(Word, h, 0, |h| - 1) by {
      forall m | 0 <= m < |h| - 1 ensures IsWord(h[m]) { assert h[m] == h[..|h| - 1][m]; }
    }
    DissectWithoutScheme(h, "");
    BareHost(h, "");
  }

  /** Appending a path without line breaks to a host, with or without a port, changes nothing, except exactly when
      the "word:" that it consists of turns into a scheme; the one coincidence is ":" followed by "//:". */
  lemma PathErasedIff(h: string, path: string)
    requires h != "" && '/' !in h && NoBreaks(path)
    ensures Dissect(h + "/" + path) == Dissect(h)
            <==> !Swallowed(h, path) || (h == ":" && Segment(path[1..]) == ":")
  {
    if Swallowed(h, path) {
      DissectSwallowed(h, path);
      SegmentHost(Segment(path[1..]), h);
    } else {
      assert h + "/" + path == h + ("/" + path);
      if SeparatorAt(h + "/" + path, RunEnd(Word, h + "/" + path, 0))
         && Authority(h + "/" + path, RunEnd(Word, h + "/" + path, 0) + 3).Some? {
        SeparatorNeedsSlashes(h, path);
      }
      DissectWithoutScheme(h, "/" + path);
      assert h + "" == h;
      DissectWithoutScheme(h, "");
    }
  }

  lemma SegmentHost(a: string, h: string)
    requires h != "" && h[|h| - 1] == ':'
    ensures HostServ(a, h[..|h| - 1]) == Success(Uri(h, "", false)) <==> a == ":" && h == ":"
  {
    var scheme := h[..|h| - 1];
    assert h == scheme + ":";
    if p :| 0 <= p < |a| && (BracketedAt(a, p) || PlainAt(a, p)) {
      PortOverridesScheme(a, p, scheme);
    } else {
      BareHost(a, scheme);
    }
  }

  /** With a scheme a path is always erased. */
  lemma PathErasedAfterScheme(scheme: string, h: string, path: string)
    requires Words(scheme) && h != "" && '/' !in h && NoBreaks(path)
    ensures Dissect(scheme + "://" + h + "/" + path) == Dissect(scheme + "://" + h)
  {
    DissectWithScheme(scheme, h, "/" + path);
    assert scheme + "://" + h + ("/" + path) == scheme + "://" + h + "/" + path;
    DissectWithScheme(scheme, h, "");
    assert scheme + "://" + h + "" == scheme + "://" + h;
  }

  // ----- printing -----

  /** host:serv, or [host]:serv for anything but IPv4 */
  function Printed(isV6: bool, host: string, serv: string): string
  {
    if isV6 then "[" + host + "]:" + serv else host + ":" + serv
  }

  const NI_MAXHOST := 1025
  const NI_MAXSERV := 32

  /** What getnameinfo leaves in a buffer: a terminated string, then anything. */
  ghost predicate Holds(buffer: string, text: string)
  {
    |text| < |buffer| && buffer[..|text|] == text && buffer[|text|] == '\0' && '\0' !in text
  }

  /** std::string::find of a terminator. */
  method FindNul(s: string, from: nat, ghost text: string) returns (i: nat)
    requires from <= |s| && Holds(s[from..], text)
    ensures i == from + |text|
  {
    assert forall k | 0 <= k < |text| :: s[from + k] == s[from..][..|text|][k] && text[k] in text;
    i := from;
    while s[i] != '\0'
      invariant from <= i <= from + |text|
      decreases from + |text| - i
    {
      assert s[from + |text|] == s[from..][|text|];
      i := i + 1;
    }
  }

  lemma HoldsWithin(s: string, from: nat, buffer: string, text: string)
    requires from + |buffer| <= |s| && s[from..from + |buffer|] == buffer && Holds(buffer, text)
    ensures Holds(s[from..], text)
  {
  }

  /** The string after a write into it. */
  function Overwritten(s: string, at: nat, buffer: string): (r: string)
    requires at + |buffer| <= |s|
    ensures |r| == |s| && r[at..at + |buffer|] == buffer
    ensures forall k | 0 <= k < |s| && !(at <= k < at + |buffer|) :: r[k] == s[k]
  {
    s[..at] + buffer + s[at + |buffer|..]
  }

  /** The second half of to_string: erase what follows the service, put the separators before it,
      and erase what lies between the host and them. */
  method CloseUp(isV6: bool, buffer: string, host: nat, service: nat, ghost hostText: string, ghost servText: string)
    returns (str: string)
    requires host + NI_MAXHOST + (if isV6 then 2 else 1) == service <= |buffer|
    requires buffer[..host] == if isV6 then "[" else ""
    requires Holds(buffer[host..host + NI_MAXHOST], hostText)
    requires Holds(buffer[service..], servText)
    ensures str == Printed(isV6, hostText, servText)
  {
    var serv := service;
    var end := FindNul(buffer, serv, servText);
    str := buffer[..end];
    assert str[serv..] == buffer[service..][..|servText|];
    serv := serv - 1;
    str := str[serv := ':'];
    if isV6 {
      serv := serv - 1;
      str := str[serv := ']'];
    }
    assert str[serv..] == (if isV6 then "]:" else ":") + servText;
    assert str[..host + NI_MAXHOST] == buffer[..host + NI_MAXHOST];
    HoldsWithin(str, host, buffer[host..host + NI_MAXHOST], hostText);
    var hostEnd := FindNul(str, host, hostText);
    assert str[host..hostEnd] == str[host..][..|hostText|];
    assert str[..hostEnd] == buffer[..host] + hostText;
    str := str[..hostEnd] + str[serv..];
  }

  /** to_string(SockAddrView): both names are written into one buffer, which is then closed up in place. */
  method ToString(isV6: bool, hostBuffer: string, servBuffer: string, ghost hostText: string, ghost servText: string)
    returns (str: string)
    requires |hostBuffer| == NI_MAXHOST && Holds(hostBuffer, hostText)
    requires |servBuffer| == NI_MAXSERV && Holds(servBuffer, servText)
    ensures str == Printed(isV6, hostText, servText)
  {
    str := seq(NI_MAXHOST + NI_MAXSERV + 3, _ => '\0');
    var host := 0;
    var serv := NI_MAXHOST + 1;
    if isV6 {
      str := str[host := '['];
      host := host + 1;
      serv := serv + 2;
    }

    // getnameinfo
    str := Overwritten(str, host, hostBuffer);
    ghost var named := str;
    str := Overwritten(str, serv, servBuffer);
    assert str[host..host + NI_MAXHOST] == named[host..host + NI_MAXHOST];
    assert str[..host] == if isV6 then "[" else "";
    HoldsWithin(str, serv, servBuffer, servText);
    str := CloseUp(isV6, str, host, serv, hostText, servText);
  }

  // ----- the round trip -----

  /** A decimal port number in range. */
  predicate PortText(serv: string)
  {
    serv != "" && (forall m | 0 <= m < |serv| :: '0' <= serv[m] <= '9') && Value(serv) <= 65535
  }

  function Decimal(n: nat): string
  {
    (if n < 10 then "" else Decimal(n / 10)) + [('0' as int + n % 10) as char]
  }

  lemma ValueOfDigit(s: string, d: nat)
    requires d < 10
    ensures Value(s + [('0' as int + d) as char]) == 10 * Value(s) + d
  {
    var t := s + [('0' as int + d) as char];
    assert t[..|t| - 1] == s;
  }

  /** The digits of a number, of any size, have its value. */
  lemma {:induction false} DecimalHasValue(n: nat)
    ensures Value(Decimal(n)) == n
    decreases n
  {
    var front, d := if n < 10 then "" else Decimal(n / 10), n % 10;
    if n >= 10 {
      DecimalHasValue(n / 10);
    }
    ValueOfDigit(front, d);
  }

  lemma {:induction false} DecimalIsDigits(n: nat)
    ensures Decimal(n) != "" && forall m | 0 <= m < |Decimal(n)| :: '0' <= Decimal(n)[m] <= '9'
    decreases n
  {
    if n >= 10 {
      DecimalIsDigits(n / 10);
    }
  }

  /** What getnameinfo prints for a port is such a text, and stands for that port. */
  lemma PortsArePortTexts(port: nat)
    requires port <= PORT_MAX
    ensures PortText(Decimal(port)) && Value(Decimal(port)) == port
  {
    DecimalHasValue(port);
    DecimalIsDigits(port);
  }

  lemma {:induction false} DigitsAreNotNegative(serv: string)
    requires forall m | 0 <= m < |serv| :: IsDigit(serv[m])
    ensures Value(serv) >= 0
  {
    if serv != "" {
      DigitsAreNotNegative(serv[..|serv| - 1]);
    }
  }

  lemma PortTextIsChecked(host: string, serv: string)
    requires PortText(serv)
    ensures Checked(host, serv) == Success(Uri(host, serv, true))
  {
    DigitsAreNotNegative(serv);
  }

  lemma HostFromAuthority(a: string, serv: string)
    requires HostServ(a, serv).Success?
    ensures forall c | c in HostServ(a, serv).value.host :: c in a
  {
  }

  /** No host has a slash. */
  lemma HostHasNoSlash(uri: string)
    requires Dissect(uri).Success?
    ensures '/' !in Dissect(uri).value.host
  {
    MatchServ(uri);
    var g := FullMatch(SERV, uri).value;
    HostFromAuthority(Text(uri, g, 3), Text(uri, g, 2));
  }

  lemma SlashFree(uri: string)
    requires uri != "" && '/' !in uri
    ensures Dissect(uri) == HostServ(uri, "")
  {
    assert uri + "" == uri;
    DissectWithoutScheme(uri, "");
  }

  /** What becomes of a slash-free string that ends in a colon and a port. */
  lemma DissectPort(uri: string, p: nat)
    requires '/' !in uri && PortAt(uri, p) && PortText(uri[p + 1..])
    ensures Dissect(uri) == Success(if BracketedAt(uri, p) then Uri(uri[1..p - 1], uri[p + 1..], true)
                                    else if PlainAt(uri, p) then Uri(uri[..p], uri[p + 1..], true)
                                    else Uri(uri, "", false))
  {
    SlashFree(uri);
    if BracketedAt(uri, p) {
      BracketedHost(uri, p, "");
      PortTextIsChecked(uri[1..p - 1], uri[p + 1..]);
    } else if PlainAt(uri, p) {
      PlainHost(uri, p, "");
      PortTextIsChecked(uri[..p], uri[p + 1..]);
    } else {
      forall q | 0 <= q < |uri| ensures !BracketedAt(uri, q) && !PlainAt(uri, q) {
        if PortAt(uri, q) { PortIsUnique(uri, p, q); }
      }
      BareHost(uri, "");
    }
  }

  /** Looks like the bracketed form itself. */
  predicate InBrackets(host: string)
  {
    |host| >= 2 && host[0] == '[' && host[|host| - 1] == ']' && forall m | 1 <= m < |host| - 1 :: !LineBreak(host[m])
  }

  /** Printing an IPv4 address and dissecting it again gives the host and port back iff the host is not empty,
      has neither slash nor colon, and is not itself in brackets. */
  lemma RoundTripV4Iff(host: string, serv: string)
    requires PortText(serv)
    ensures Dissect(Printed(false, host, serv)) == Success(Uri(host, serv, true))
            <==> host != "" && '/' !in host && ':' !in host && !InBrackets(host)
  {
    var uri, p := Printed(false, host, serv), |host|;
    assert uri[..p] == host && uri[p] == ':' && uri[p + 1..] == serv;
    assert forall m | 0 <= m < |host| :: uri[m] == host[m] && host[m] in host;
    assert forall m | p < m < |uri| :: uri[m] == serv[m - p - 1];
    if '/' in host {
      if Dissect(uri).Success? { HostHasNoSlash(uri); }
    } else {
      DissectPort(uri, p);
      assert BracketedAt(uri, p) <==> InBrackets(host);
      assert PlainAt(uri, p) <==> host != "" && ':' !in host;
    }
  }

  lemma PrintedInBrackets(host: string, serv: string)
    requires PortText(serv)
    ensures var uri, p := Printed(true, host, serv), |host| + 2;
            && PortAt(uri, p) && uri[1..p - 1] == host && uri[p + 1..] == serv
            && ('/' in uri <==> '/' in host)
            && (BracketedAt(uri, p) <==> NoBreaks(host))
  {
    var uri, p := Printed(true, host, serv), |host| + 2;
    assert uri == "[" + host + "]:" + serv;
    assert uri[1..p - 1] == host && uri[p] == ':' && uri[p + 1..] == serv && uri[p - 1] == ']' && uri[0] == '[';
    assert forall m | 0 <= m < |host| :: uri[m + 1] == host[m];
    assert forall m | p < m < |uri| :: uri[m] == serv[m - p - 1];
    assert '/' !in serv;
  }

  /** Any other address is recovered iff the host has neither slash nor line break. */
  lemma RoundTripV6Iff(host: string, serv: string)
    requires PortText(serv)
    ensures Dissect(Printed(true, host, serv)) == Success(Uri(host, serv, true))
            <==> '/' !in host && NoBreaks(host)
  {
    var uri, p := Printed(true, host, serv), |host| + 2;
    PrintedInBrackets(host, serv);
    if '/' in host {
      if Dissect(uri).Success? { HostHasNoSlash(uri); }
    } else {
      DissectPort(uri, p);
      assert |uri| > |host| && |uri[..p]| > |host|;
    }
  }
}
