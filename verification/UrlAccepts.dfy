/** The grammar of the URLs the parser accepts, in all their spellings, with the components each gives. */
module UrlAccepts {
  import opened Ascii
  import opened UrlParser
  import opened UrlRoundTrip
  import opened UrlAborts

  // ---------- The grammar ----------

  /** The text without its question marks: a second one in a query is dropped. */
  function WithoutMarks(s: string): string {
    if s == "" then "" else (if s[0] == '?' then "" else [s[0]]) + WithoutMarks(s[1..])
  }

  predicate NoFragmentMark(s: string) { '#' !in s }

  ghost predicate IsResourceOf(t: string, u: Url, path: string, query: string, fragment: string) {
    && t == path + (query + fragment)
    && GoodPath(path) && u.path == path
    && (query == "" || query[0] == '?') && NoFragmentMark(query) && u.query == WithoutMarks(query)
    && (fragment == "" || fragment[0] == '#') && u.fragment == if fragment == "" then "" else fragment[1..]
  }

  /** A path that starts with a slash, a query, a fragment. */
  ghost predicate IsResource(t: string, u: Url) { exists path, query, fragment :: IsResourceOf(t, u, path, query, fragment) }

  /** Without a path the resource is the slash alone. */
  predicate NoResource(u: Url) { u.path == "/" && u.query == "" && u.fragment == "" }

  predicate NoPort(u: Url) { u.port == "" && u.integerPort == 0 }

  /** What follows a host: the end, a colon and the end, a resource, or a port and a resource. */
  ghost predicate BehindHost(t: string, u: Url) {
    || ((t == "" || t == ":") && NoPort(u) && NoResource(u))
    || (IsResource(t, u) && NoPort(u))
    || (exists digits, rest ::
          t == ":" + (digits + rest) && All(IsDigit, digits) && u.port == digits && u.integerPort == PortNumber(digits) && IsResource(rest, u))
  }

  ghost predicate IsHost(t: string, u: Url) {
    exists host, rest :: t == host + rest && All(IsHostByte, host) && u.hostname == host && BehindHost(rest, u)
  }

  /** Behind user information the start of an IPv6 host may stand alone. */
  ghost predicate IsHostOrBracket(t: string, u: Url) {
    IsHost(t, u) || (t == "[" && u.hostname == "" && NoPort(u) && NoResource(u))
  }

  ghost predicate IsAuthority(t: string, u: Url) {
    || (IsHost(t, u) && u.username == u.password == "")
    || (exists name, host :: t == name + ("@" + host) && All(IsHostByte, name) && u.username == name && u.password == "" && IsHostOrBracket(host, u))
    || (exists name, rest :: t == name + (":" + rest) && All(IsHostByte, name) && u.username == name && IsPassword(rest, u))
  }

  /** A password with a non-digit, and what follows it: a host behind `@`, or nothing. */
  ghost predicate IsPassword(t: string, u: Url) {
    || (t == u.password != "" && GoodPassword(t) && u.hostname == "" && NoPort(u) && NoResource(u))
    || (exists password, host ::
          t == password + ("@" + host) && password != "" && GoodPassword(password) && u.password == password && IsHostOrBracket(host, u))
  }

  predicate NoAuthority(u: Url) { u.username == u.password == u.hostname == "" && NoPort(u) && NoResource(u) }

  ghost predicate IsBehindScheme(t: string, u: Url) {
    || ((t == "" || t == "/") && NoAuthority(u))
    || (|t| >= 2 && t[0] == t[1] == '/' && IsAuthority(t[2..], u))
    || (t != "" && IsAlnum(t[0]) && IsAuthority(t, u))
  }

  /** `str` is a spelling of the components `u`. */
  ghost predicate UrlShape(str: string, u: Url) {
    || (All(IsSchemeByte, str) && u.scheme == str && NoAuthority(u))
    || (exists scheme, rest :: str == scheme + (":" + rest) && All(IsSchemeByte, scheme) && u.scheme == scheme && IsBehindScheme(rest, u))
  }

  // ---------- One step and many ----------

  ghost predicate Gives(s: Scan, t: string, u: Url) { Finish(Run(s, t)) == Returned(true, u) }

  lemma GivesOnward(s: Scan, t: string, a: string, b: string, u: Url)
    requires Live(s) && Splits(s, t, a, b)
    ensures Gives(s, t, u) <==> Gives(Collected(s, a), b, u)
    ensures b != "" ==> (Gives(Collected(s, a), b, u) <==> Gives(Step(Collected(s, a), b[0]), b[1..], u))
    ensures Live(Collected(s, a))
  {
    hide Step, Collected, Collects;
    CollectRun(s, a);
    RunAppend(s, a, b);
  }

  lemma AtEnd(s: Scan, u: Url)
    requires Live(s) && s.portOrPassword == ""
    ensures Gives(s, "", u) <==> u == if s.userOrHost != "" then s.url.(hostname := s.userOrHost) else s.url
  {
  }

  lemma DeadGivesNothing(s: Scan, t: string, u: Url)
    requires !Live(s)
    ensures !Gives(s, t, u)
  {
  }

  lemma NextByte(s: Scan, t: string, u: Url)
    requires Live(s) && t != ""
    ensures Gives(s, t, u) <==> Gives(Step(s, t[0]), t[1..], u)
  {
  }

  // ---------- Path, query and fragment ----------

  lemma FragmentGives(s: Scan, t: string, u: Url)
    requires Live(s) && s.state == Fragment && s.portOrPassword == s.userOrHost == ""
    ensures Gives(s, t, u) <==> u == s.url.(fragment := s.url.fragment + t)
  {
    CollectRun(s, t);
    AtEnd(Collected(s, t), u);
  }

  lemma {:induction false} QueryRun(s: Scan, q: string)
    requires Live(s) && s.state == Query && NoFragmentMark(q)
    ensures Run(s, q) == s.(url := s.url.(query := s.url.query + WithoutMarks(q)))
    decreases |q|
  {
    assert s.url.query + "" == s.url.query;
    if q != "" {
      assert q[0] in q && forall c | c in q[1..] :: c in q;
      QueryRun(Step(s, q[0]), q[1..]);
      assert s.url.query + [q[0]] + WithoutMarks(q[1..]) == s.url.query + ([q[0]] + WithoutMarks(q[1..]));
    }
  }

  lemma {:induction false} SplitAtMark(t: string) returns (q: string, f: string)
    ensures t == q + f && NoFragmentMark(q) && (f == "" || f[0] == '#')
  {
    if t == "" || t[0] == '#' {
      q, f := "", t;
    } else {
      var p;
      p, f := SplitAtMark(t[1..]);
      q := [t[0]] + p;
    }
  }

  lemma QueryEnds(s: Scan, q: string, f: string, u: Url)
    requires Live(s) && s.state == Query && s.portOrPassword == s.userOrHost == "" && s.url.fragment == ""
    requires NoFragmentMark(q) && (f == "" || f[0] == '#')
    ensures Gives(s, q + f, u) <==>
            u == s.url.(query := s.url.query + WithoutMarks(q), fragment := if f == "" then "" else f[1..])
  {
    hide Step;
    QueryRun(s, q);
    RunAppend(s, q, f);
    var p := Run(s, q);
    AtEnd(p, u);
    if f != "" {
      NextByte(p, f, u);
      MarkStarts(p);
      FragmentGives(p.(state := Fragment), f[1..], u);
      assert "" + f[1..] == f[1..];
    }
  }

  lemma MarkStarts(p: Scan)
    ensures p.state == Query ==> Step(p, '#') == p.(state := Fragment)
    ensures p.state == Path ==> Step(p, '#') == p.(state := Fragment) && Step(p, '?') == p.(state := Query)
  {
  }

  ghost predicate InPath(s: Scan) {
    && Live(s) && s.state == Path && s.portOrPassword == s.userOrHost == ""
    && NoResource(s.url)
  }

  /** Components before the path are kept. */
  predicate SameFront(u: Url, v: Url) {
    u.scheme == v.scheme && u.username == v.username && u.password == v.password && u.hostname == v.hostname
    && u.port == v.port && u.integerPort == v.integerPort
  }

  lemma PathEnds(s: Scan, t: string, p: string, b: string, u: Url)
    requires InPath(s) && Splits(s, t, p, b)
    ensures Gives(s, t, u) <==>
            && SameFront(u, s.url) && u.path == "/" + p
            && if b == "" || b[0] == '#' then u.query == "" && u.fragment == (if b == "" then "" else b[1..])
               else exists q, f :: IsQueryOf(b, q, f, u)
  {
    hide Run, Step, Collects, WithoutMarks;
    GivesOnward(s, t, p, b, u);
    var c := Collected(s, p);
    AtEnd(c, u);
    MarkStarts(c);
    if b != "" && b[0] == '#' {
      FragmentGives(c.(state := Fragment), b[1..], u);
      assert "" + b[1..] == b[1..];
    }
    if b != "" && b[0] != '#' {
      PathStops(s, b[0]);
      QueryGives(c.(state := Query), b, u);
    }
  }

  lemma PathStops(c: Scan, x: char)
    ensures c.state == Path && !Collects(c, x) ==> x == '?' || x == '#'
  {
  }

  /** A question mark, a query, and a fragment. */
  ghost predicate IsQueryOf(b: string, q: string, f: string, u: Url) {
    && b == q + f && q != "" && q[0] == '?' && NoFragmentMark(q) && (f == "" || f[0] == '#')
    && u.query == WithoutMarks(q) && u.fragment == if f == "" then "" else f[1..]
  }

  lemma QueryGives(s: Scan, b: string, u: Url)
    requires Live(s) && s.state == Query && s.portOrPassword == s.userOrHost == "" && s.url.fragment == s.url.query == ""
    requires b != "" && b[0] == '?'
    ensures Gives(s, b[1..], u) <==>
            SameFront(u, s.url) && u.path == s.url.path && exists q, f :: IsQueryOf(b, q, f, u)
  {
    hide Run, Step, WithoutMarks, Gives;
    var q, f := SplitAtMark(b[1..]);
    QueryEnds(s, q, f, u);
    MarkDrops(q);
    assert "?" + q + f == b;
    if Gives(s, b[1..], u) { assert IsQueryOf(b, "?" + q, f, u); }
    forall q', f' | IsQueryOf(b, q', f', u) && SameFront(u, s.url) && u.path == s.url.path ensures Gives(s, b[1..], u) {
      assert b[1..] == q'[1..] + f' && forall c | c in q'[1..] :: c in q';
      assert q' == "?" + q'[1..];
      MarkDrops(q'[1..]);
      QueryEnds(s, q'[1..], f', u);
    }
  }

  lemma MarkDrops(q: string)
    ensures WithoutMarks("?" + q) == WithoutMarks(q) && "" + WithoutMarks(q) == WithoutMarks(q)
    ensures NoFragmentMark("?" + q) <==> NoFragmentMark(q)
  {
    assert ("?" + q)[1..] == q && "" + WithoutMarks(q) == WithoutMarks(q);
    assert forall c :: c in "?" + q <==> c == '?' || c in q;
  }

  /** From the slash of the path on. */
  lemma PathGives(s: Scan, t: string, u: Url)
    requires InPath(s)
    ensures Gives(s, t, u) <==> SameFront(u, s.url) && IsResource("/" + t, u)
  {
    hide Run, Step, Gives, WithoutMarks, GoodPath;
    var p, b := Split(s, t);
    PathEnds(s, t, p, b, u);
    if Gives(s, t, u) {
      PathIsGood(s, p);
      if b == "" || b[0] == '#' {
        EmptyQuery(p, b);
        assert IsResourceOf("/" + t, u, "/" + p, "", b);
      } else {
        var q, f :| IsQueryOf(b, q, f, u);
        assert "/" + (p + (q + f)) == "/" + p + (q + f);
        assert IsResourceOf("/" + t, u, "/" + p, q, f);
      }
    }
    forall path, query, fragment | SameFront(u, s.url) && IsResourceOf("/" + t, u, path, query, fragment) ensures Gives(s, t, u) {
      GoodPathParts(s, path);
      DropFirst(t, path, query + fragment);
      EmptyQuery(path[1..], fragment);
      if query == "" {
        assert query + fragment == fragment;
      } else {
        assert IsQueryOf(query + fragment, query, fragment, u);
      }
      PathEnds(s, t, path[1..], query + fragment, u);
    }
  }

  lemma DropFirst(t: string, path: string, rest: string)
    requires path != "" && "/" + t == path + rest
    ensures t == path[1..] + rest
  {
    assert ("/" + t)[1..] == t && (path + rest)[1..] == path[1..] + rest;
  }

  lemma EmptyQuery(p: string, b: string)
    ensures "/" + (p + b) == "/" + p + ("" + b) && WithoutMarks("") == "" && NoFragmentMark("")
  {
  }

  lemma PathIsGood(s: Scan, p: string)
    requires s.state == Path && forall i | 0 <= i < |p| :: Collects(s, p[i])
    ensures GoodPath("/" + p)
  {
    forall i | 0 <= i < |"/" + p| ensures IsPathByte(("/" + p)[i]) {
      if i > 0 { assert Collects(s, p[i - 1]); }
    }
  }

  lemma GoodPathParts(s: Scan, path: string)
    requires s.state == Path && GoodPath(path)
    ensures path == "/" + path[1..] && forall i | 0 <= i < |path| - 1 :: Collects(s, path[1..][i])
    ensures !Collects(s, '?') && !Collects(s, '#')
  {
  }

  // ---------- Hosts and ports ----------

  lemma ResourceStarts(t: string, u: Url)
    ensures IsResource(t, u) ==> t != "" && t[0] == '/' && "/" + t[1..] == t
  {
  }

  predicate SameUser(u: Url, v: Url) { u.scheme == v.scheme && u.username == v.username && u.password == v.password }

  /** A port behind a host that user information fixed. */
  lemma PortGives(s: Scan, t: string, u: Url)
    requires Live(s) && s.state == Port && s.portOrPassword == s.userOrHost == "" && NoPort(s.url) && NoResource(s.url)
    ensures Gives(s, t, u) <==> SameUser(u, s.url) && u.hostname == s.url.hostname && BehindHost(":" + t, u)
  {
    hide Run, IsResource, PortNumber, Gives;
    var d, b := Split(s, t);
    PortGivesAt(s, t, d, b, u);
    ColonIsNoPath(t, u);
    assert (":" + t)[1..] == t;
    if Gives(s, t, u) && b != "" { assert ":" + t == ":" + (d + b) && All(IsDigit, d); }
    forall digits, rest | ":" + t == ":" + (digits + rest) && All(IsDigit, digits) && u.port == digits && u.integerPort == PortNumber(digits) && IsResource(rest, u)
      ensures SameUser(u, s.url) && u.hostname == s.url.hostname ==> Gives(s, t, u)
    {
      assert (":" + (digits + rest))[1..] == digits + rest;
      ResourceStarts(rest, u);
      PortGivesAt(s, t, digits, rest, u);
    }
    if t == "" { PortGivesAt(s, t, "", "", u); }
  }

  lemma ColonIsNoPath(t: string, u: Url)
    ensures !IsResource(":" + t, u)
  {
    ResourceStarts(":" + t, u);
  }

  lemma PortGivesAt(s: Scan, t: string, d: string, b: string, u: Url)
    requires Live(s) && s.state == Port && s.portOrPassword == s.userOrHost == "" && NoPort(s.url) && NoResource(s.url)
    requires Splits(s, t, d, b)
    ensures Gives(s, t, u) <==>
            && SameUser(u, s.url) && u.hostname == s.url.hostname
            && if b == "" then d == "" && NoPort(u) && NoResource(u)
               else u.port == d && u.integerPort == PortNumber(d) && IsResource(b, u)
  {
    hide Run, IsResource, PortNumber;
    GivesOnward(s, t, d, b, u);
    var c := Collected(s, d);
    assert "" + d == d;
    if b == "" {
      if d == "" { AtEnd(c, u); } else { Undecided(c, u); }
    } else if b[0] == '/' {
      var n := Step(c, '/');
      PathGives(n, b[1..], u);
      assert "/" + b[1..] == b;
    } else {
      DeadGivesNothing(Step(c, b[0]), b[1..], u);
      ResourceStarts(b, u);
    }
  }

  lemma Undecided(s: Scan, u: Url)
    requires s.portOrPassword != ""
    ensures !Gives(s, "", u)
  {
  }

  ghost predicate AtHostFront(s: Scan) {
    Live(s) && s.state == Hostname && s.portOrPassword == s.userOrHost == "" && s.url.hostname == "" && NoPort(s.url) && NoResource(s.url)
  }

  lemma HostGivesAt(s: Scan, t: string, h: string, b: string, u: Url)
    requires AtHostFront(s) && Splits(s, t, h, b)
    ensures Gives(s, t, u) <==>
            && SameUser(u, s.url) && u.hostname == h
            && if b == "[" && h == "" then NoPort(u) && NoResource(u) else BehindHost(b, u)
  {
    hide Run, IsResource, PortNumber;
    GivesOnward(s, t, h, b, u);
    var c := Collected(s, h);
    assert "" + h == h;
    AtEnd(c, u);
    if b != "" {
      assert b == [b[0]] + b[1..];
      ResourceStarts(b, u);
      var n := Step(c, b[0]);
      if b[0] == ':' {
        PortGives(n, b[1..], u);
      } else if b[0] == '/' {
        PathGives(n, b[1..], u);
      } else if b[0] == '[' && h == "" {
        if |b| > 1 { BracketGivesNothing(n, b[1..], u); } else { AtEnd(n, u); }
      } else {
        DeadGivesNothing(n, b[1..], u);
      }
    } else {
      ResourceStarts("", u);
    }
  }

  lemma BracketGivesNothing(s: Scan, t: string, u: Url)
    requires Live(s) && s.state == IPV6Hostname && t != ""
    ensures !Gives(s, t, u)
  {
    NextByte(s, t, u);
    DeadGivesNothing(Step(s, t[0]), t[1..], u);
  }

  /** What may follow a host does not start with a host byte. */
  lemma BehindHostStarts(t: string, u: Url)
    requires BehindHost(t, u)
    ensures t == "" || t[0] == ':' || t[0] == '/'
  {
    ResourceStarts(t, u);
  }

  lemma HostGives(s: Scan, t: string, u: Url)
    requires AtHostFront(s)
    ensures Gives(s, t, u) <==> SameUser(u, s.url) && IsHostOrBracket(t, u)
  {
    hide Run, BehindHost, Gives;
    var h, b := Split(s, t);
    HostGivesAt(s, t, h, b, u);
    if Gives(s, t, u) && !(b == "[" && h == "") { assert t == h + b && All(IsHostByte, h); }
    forall host, rest | SameUser(u, s.url) && t == host + rest && All(IsHostByte, host) && u.hostname == host && BehindHost(rest, u)
      ensures Gives(s, t, u)
    {
      BehindHostStarts(rest, u);
      HostGivesAt(s, t, host, rest, u);
    }
    if SameUser(u, s.url) && t == "[" && u.hostname == "" && NoPort(u) && NoResource(u) {
      assert t == "" + "[";
      HostGivesAt(s, t, "", "[", u);
    }
  }

  // ---------- User information ----------

  /** The rest of a password that began with `p`. */
  ghost predicate IsRestOfPassword(p: string, t: string, u: Url) {
    || (All(IsPasswordByte, t) && u.password == p + t && u.hostname == "" && NoPort(u) && NoResource(u))
    || (exists q, host :: t == q + ("@" + host) && All(IsPasswordByte, q) && u.password == p + q && IsHostOrBracket(host, u))
  }

  ghost predicate InPassword(s: Scan) {
    Live(s) && s.state == Password && s.portOrPassword == s.userOrHost == "" && s.url.hostname == "" && NoPort(s.url) && NoResource(s.url)
  }

  lemma PasswordGivesAt(s: Scan, t: string, q: string, b: string, u: Url)
    requires InPassword(s) && Splits(s, t, q, b)
    ensures Gives(s, t, u) <==>
            && u.scheme == s.url.scheme && u.username == s.url.username && u.password == s.url.password + q
            && if b == "" then u.hostname == "" && NoPort(u) && NoResource(u) else b[0] == '@' && IsHostOrBracket(b[1..], u)
  {
    hide Run, IsHostOrBracket;
    GivesOnward(s, t, q, b, u);
    var c := Collected(s, q);
    AtEnd(c, u);
    if b != "" {
      if b[0] == '@' { HostGives(Step(c, '@'), b[1..], u); } else { DeadGivesNothing(Step(c, b[0]), b[1..], u); }
    }
  }

  lemma PasswordGives(s: Scan, t: string, u: Url)
    requires InPassword(s)
    ensures Gives(s, t, u) <==>
            u.scheme == s.url.scheme && u.username == s.url.username && IsRestOfPassword(s.url.password, t, u)
  {
    hide Run, IsHostOrBracket, Gives;
    var q, b := Split(s, t);
    PasswordGivesAt(s, t, q, b, u);
    if b != "" { assert b == [b[0]] + b[1..]; }
    if Gives(s, t, u) && b != "" { assert t == q + ("@" + b[1..]) && All(IsPasswordByte, q); }
    if Gives(s, t, u) && b == "" { assert t == q; }
    if All(IsPasswordByte, t) {
      assert t == t + "";
      PasswordGivesAt(s, t, t, "", u);
    }
    forall q', host | u.scheme == s.url.scheme && u.username == s.url.username && t == q' + ("@" + host)
                      && All(IsPasswordByte, q') && u.password == s.url.password + q' && IsHostOrBracket(host, u)
      ensures Gives(s, t, u)
    {
      ColonSplits(t, q', '@', host);
      PasswordGivesAt(s, t, q', "@" + host, u);
    }
  }

  /** Behind a name and a colon, with nothing settled. */
  ghost predicate Unsettled(s: Scan) {
    && Live(s) && s.state == PortOrPassword && s.portOrPassword == "" && s.url.username == s.url.password == s.url.hostname == ""
    && NoPort(s.url) && NoResource(s.url)
  }

  lemma UnsettledGivesAt(s: Scan, t: string, d: string, b: string, u: Url)
    requires Unsettled(s) && Splits(s, t, d, b)
    ensures Gives(s, t, u) <==>
            && u.scheme == s.url.scheme
            && if b == "" then d == "" && u.username == u.password == "" && u.hostname == s.userOrHost && NoPort(u) && NoResource(u)
               else if b[0] == '/' then
                 && u.username == u.password == "" && u.hostname == s.userOrHost
                 && u.port == d && u.integerPort == PortNumber(d) && IsResource(b, u)
               else IsPasswordByte(b[0]) && u.username == s.userOrHost && IsRestOfPassword(d + [b[0]], b[1..], u)
  {
    hide Run, IsResource, PortNumber, IsRestOfPassword;
    GivesOnward(s, t, d, b, u);
    var c := Collected(s, d);
    assert "" + d == d;
    if b == "" {
      if d == "" { AtEnd(c, u); } else { Undecided(c, u); }
    } else {
      var n := Step(c, b[0]);
      if b[0] == '/' {
        PathGives(n, b[1..], u);
        assert "/" + b[1..] == b;
      } else if IsPasswordByte(b[0]) {
        PasswordGives(n, b[1..], u);
      } else {
        DeadGivesNothing(n, b[1..], u);
      }
    }
  }

  lemma PasswordBegins(d: string, c: char, t: string, u: Url)
    requires All(IsDigit, d) && IsPasswordByte(c) && !IsDigit(c) && IsRestOfPassword(d + [c], t, u)
    ensures IsPassword(d + ([c] + t), u)
  {
    hide IsHostOrBracket;
    if All(IsPasswordByte, t) && u.password == d + [c] + t && u.hostname == "" && NoPort(u) && NoResource(u) {
      assert d + ([c] + t) == u.password;
      assert u.password[|d|] == c;
    } else {
      var q, host :| t == q + ("@" + host) && All(IsPasswordByte, q) && u.password == d + [c] + q && IsHostOrBracket(host, u);
      var p := d + [c] + q;
      assert p[|d|] == c && GoodPassword(p);
      RegroupPassword(d, [c], q, "@" + host);
      assert d + ([c] + q) == p && d + ([c] + t) == p + ("@" + host);
    }
  }

  lemma PasswordDivides(p: string, tail: string) returns (d: string, c: char, q: string)
    requires p != "" && GoodPassword(p)
    ensures All(IsDigit, d) && IsPasswordByte(c) && !IsDigit(c) && All(IsPasswordByte, q)
    ensures p + tail == d + ([c] + (q + tail)) && p == d + [c] + q
  {
    var k := FirstNonDigit(p);
    d, c, q := p[..k], p[k], p[k + 1..];
    assert p == d + [c] + q;
    assert d + [c] + q + tail == d + ([c] + (q + tail));
  }

  lemma UnsettledGives(s: Scan, t: string, u: Url)
    requires Unsettled(s)
    ensures Gives(s, t, u) <==>
            && u.scheme == s.url.scheme
            && ((u.username == u.password == "" && u.hostname == s.userOrHost && BehindHost(":" + t, u))
                || (u.username == s.userOrHost && IsPassword(t, u)))
  {
    hide Run, IsResource, PortNumber, Gives, IsHostOrBracket, GoodPassword;
    var d, b := Split(s, t);
    UnsettledGivesAt(s, t, d, b, u);
    if Gives(s, t, u) {
      if b == "" {
        assert ":" + t == ":";
      } else if b[0] == '/' {
        assert ":" + t == ":" + (d + b) && All(IsDigit, d);
      } else {
        assert b == [b[0]] + b[1..];
        PasswordBegins(d, b[0], b[1..], u);
      }
    }
    if u.scheme == s.url.scheme && u.username == u.password == "" && u.hostname == s.userOrHost && BehindHost(":" + t, u) {
      HostOnlyGives(s, t, u);
    }
    if u.scheme == s.url.scheme && u.username == s.userOrHost && IsPassword(t, u) { PasswordOnlyGives(s, t, u); }
  }

  lemma HostOnlyGives(s: Scan, t: string, u: Url)
    requires Unsettled(s) && u.scheme == s.url.scheme
    requires u.username == u.password == "" && u.hostname == s.userOrHost && BehindHost(":" + t, u)
    ensures Gives(s, t, u)
  {
    hide Run, IsResource, PortNumber, Gives;
    ColonIsNoPath(t, u);
    assert (":" + t)[1..] == t;
    if ":" + t == ":" && NoPort(u) && NoResource(u) {
      assert t == "";
      UnsettledGivesAt(s, t, "", "", u);
    } else {
      var digits, rest :| ":" + t == ":" + (digits + rest) && All(IsDigit, digits) && u.port == digits && u.integerPort == PortNumber(digits) && IsResource(rest, u);
      assert (":" + (digits + rest))[1..] == digits + rest;
      ResourceStarts(rest, u);
      UnsettledGivesAt(s, t, digits, rest, u);
    }
  }

  lemma PasswordOnlyGives(s: Scan, t: string, u: Url)
    requires Unsettled(s) && u.scheme == s.url.scheme && u.username == s.userOrHost && IsPassword(t, u)
    ensures Gives(s, t, u)
  {
    hide Run, Gives, IsHostOrBracket, GoodPassword;
    if t == u.password && t != "" && GoodPassword(t) && u.hostname == "" && NoPort(u) && NoResource(u) {
      var d, c, q := PasswordDivides(t, "");
      assert t + "" == t && q + "" == q;
      ColonSplits(t, d, c, q);
      UnsettledGivesAt(s, t, d, [c] + q, u);
    } else {
      var password, host :| t == password + ("@" + host) && password != "" && GoodPassword(password) && u.password == password && IsHostOrBracket(host, u);
      var d, c, q := PasswordDivides(password, "@" + host);
      ColonSplits(t, d, c, q + ("@" + host));
      UnsettledGivesAt(s, t, d, [c] + (q + ("@" + host)), u);
    }
  }

  // ---------- Authority and scheme ----------

  ghost predicate AtAuthorityFront(s: Scan) {
    && Live(s) && s.state == UsernameOrHostname && s.portOrPassword == s.userOrHost == ""
    && NoAuthority(s.url)
  }

  lemma AuthorityGivesAt(s: Scan, t: string, name: string, b: string, u: Url)
    requires AtAuthorityFront(s) && Splits(s, t, name, b)
    ensures Gives(s, t, u) <==>
            && u.scheme == s.url.scheme
            && ((u.username == u.password == "" && u.hostname == name && BehindHost(b, u))
                || (b != "" && b[0] == '@' && u.username == name && u.password == "" && IsHostOrBracket(b[1..], u))
                || (b != "" && b[0] == ':' && u.username == name && IsPassword(b[1..], u)))
  {
    hide Run, IsHostOrBracket, IsPassword, IsResource;
    GivesOnward(s, t, name, b, u);
    var c := Collected(s, name);
    assert "" + name == name;
    AtEnd(c, u);
    if b != "" {
      assert b == [b[0]] + b[1..];
      ResourceStarts(b, u);
      var n := Step(c, b[0]);
      if b[0] == ':' {
        UnsettledGives(n, b[1..], u);
      } else if b[0] == '/' {
        PathGives(n, b[1..], u);
      } else if b[0] == '@' {
        HostGives(n, b[1..], u);
      } else {
        DeadGivesNothing(n, b[1..], u);
      }
    } else {
      ResourceStarts("", u);
    }
  }

  lemma AuthorityGives(s: Scan, t: string, u: Url)
    requires AtAuthorityFront(s)
    ensures Gives(s, t, u) <==> u.scheme == s.url.scheme && IsAuthority(t, u)
  {
    hide Run, IsHostOrBracket, IsPassword, BehindHost, Gives;
    var a, b := Split(s, t);
    AuthorityGivesAt(s, t, a, b, u);
    if b != "" { assert b == [b[0]] + b[1..]; }
    if Gives(s, t, u) { assert t == a + b && All(IsHostByte, a); }
    if u.scheme == s.url.scheme {
      forall host, rest | u.username == u.password == "" && t == host + rest && All(IsHostByte, host) && u.hostname == host && BehindHost(rest, u)
        ensures Gives(s, t, u)
      {
        BehindHostStarts(rest, u);
        AuthorityGivesAt(s, t, host, rest, u);
      }
      forall name, host | t == name + ("@" + host) && All(IsHostByte, name) && u.username == name && u.password == "" && IsHostOrBracket(host, u)
        ensures Gives(s, t, u)
      {
        ColonSplits(t, name, '@', host);
        AuthorityGivesAt(s, t, name, "@" + host, u);
      }
      forall name, rest | t == name + (":" + rest) && All(IsHostByte, name) && u.username == name && IsPassword(rest, u)
        ensures Gives(s, t, u)
      {
        ColonSplits(t, name, ':', rest);
        AuthorityGivesAt(s, t, name, ":" + rest, u);
      }
    }
  }

  lemma BehindSchemeGives(s: Scan, t: string, u: Url)
    requires Live(s) && s.state == SlashAfterScheme1 && s.portOrPassword == s.userOrHost == "" && NoAuthority(s.url)
    ensures Gives(s, t, u) <==> u.scheme == s.url.scheme && IsBehindScheme(t, u)
  {
    hide Run, IsAuthority, Gives;
    AtEnd(s, u);
    if t != "" {
      NextByte(s, t, u);
      var n := Step(s, t[0]);
      if t[0] == '/' {
        AtEnd(n, u);
        if |t| > 1 {
          NextByte(n, t[1..], u);
          assert t[1..][1..] == t[2..];
          var a := Step(n, t[1]);
          if t[1] == '/' { AuthorityGives(a, t[2..], u); } else { DeadGivesNothing(a, t[2..], u); }
        } else {
          assert t == "/" && t[1..] == "";
        }
      } else if IsAlnum(t[0]) {
        var a := s.(state := UsernameOrHostname);
        AuthorityGives(a, t, u);
        NextByte(a, t, u);
        assert "" + [t[0]] == [t[0]];
      } else {
        DeadGivesNothing(n, t[1..], u);
      }
    }
  }

  lemma SchemeGivesAt(str: string, scheme: string, b: string, u: Url)
    requires Splits(START, str, scheme, b)
    ensures Gives(START, str, u) <==>
            u.scheme == scheme && if b == "" then NoAuthority(u) else b[0] == ':' && IsBehindScheme(b[1..], u)
  {
    hide Run, IsBehindScheme;
    GivesOnward(START, str, scheme, b, u);
    var c := Collected(START, scheme);
    assert "" + scheme == scheme;
    AtEnd(c, u);
    if b != "" {
      if b[0] == ':' { BehindSchemeGives(Step(c, ':'), b[1..], u); } else { DeadGivesNothing(Step(c, b[0]), b[1..], u); }
    }
  }

  /** The parser accepts a string with the components `u` exactly if it is a spelling of them. */
  lemma AcceptsExactly(str: string, u: Url)
    ensures Parse(str) == Returned(true, u) <==> UrlShape(str, u)
  {
    hide Run, IsBehindScheme;
    var a, b := Split(START, str);
    SchemeGivesAt(str, a, b, u);
    if b != "" { assert b == [b[0]] + b[1..]; } else { assert str == a; }
    if Gives(START, str, u) { assert All(IsSchemeByte, a) && (b != "" ==> str == a + (":" + b[1..])); }
    if All(IsSchemeByte, str) {
      assert str == str + "";
      SchemeGivesAt(str, str, "", u);
    }
    forall scheme, rest | str == scheme + (":" + rest) && All(IsSchemeByte, scheme) && u.scheme == scheme && IsBehindScheme(rest, u)
      ensures Gives(START, str, u)
    {
      ColonSplits(str, scheme, ':', rest);
      SchemeGivesAt(str, scheme, ":" + rest, u);
    }
  }

  /** In particular a host without a path is the host, with or without the slashes and user information. */
  lemma HostWithoutPath(scheme: string, name: string, host: string)
    requires All(IsSchemeByte, scheme) && All(IsHostByte, name) && All(IsHostByte, host)
    ensures Parse(scheme + (":" + ("//" + host))) == Returned(true, Url(scheme, "", "", host, "", "/", "", "", 0))
    ensures host != "" && IsAlnum(host[0]) ==>
              Parse(scheme + (":" + host)) == Returned(true, Url(scheme, "", "", host, "", "/", "", "", 0))
    ensures Parse(scheme + (":" + ("//" + (name + ("@" + host))))) == Returned(true, Url(scheme, name, "", host, "", "/", "", "", 0))
  {
    hide Run, IsAuthority;
    var u, v := Url(scheme, "", "", host, "", "/", "", "", 0), Url(scheme, name, "", host, "", "/", "", "", 0);
    PlainHost(host, u);
    NamedHost(name, host, v);
    assert ("//" + host)[2..] == host && ("//" + (name + ("@" + host)))[2..] == name + ("@" + host);
    AcceptsExactly(scheme + (":" + ("//" + host)), u);
    AcceptsExactly(scheme + (":" + host), u);
    AcceptsExactly(scheme + (":" + ("//" + (name + ("@" + host)))), v);
  }

  lemma PlainHost(host: string, u: Url)
    requires All(IsHostByte, host) && u.hostname == host && u.username == u.password == "" && NoPort(u) && NoResource(u)
    ensures IsAuthority(host, u)
  {
    assert host == host + "";
  }

  lemma NamedHost(name: string, host: string, u: Url)
    requires All(IsHostByte, name) && All(IsHostByte, host)
    requires u.hostname == host && u.username == name && u.password == "" && NoPort(u) && NoResource(u)
    ensures IsAuthority(name + ("@" + host), u)
  {
    assert host == host + "";
    assert IsHost(host, u);
  }
}
