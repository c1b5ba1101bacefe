/** The URLs that end the program: parsing one fails the final assertion, or reaches the `abort()` of the
    unfinished IPv6 branch, exactly when it has one of the shapes below. */
module UrlAborts {
  import opened Ascii
  import opened UrlParser
  import opened UrlRoundTrip

  // ---------- The shapes ----------

  /** Behind the colon of a port that follows user information: digits that no slash ends. */
  ghost predicate PortShape(t: string) {
    exists digits, tail ::
      t == digits + tail && digits != "" && All(IsDigit, digits) && (tail == "" || !(IsDigit(tail[0]) || tail[0] == '/'))
  }

  /** Behind a colon that may start a port or a password: digits that settle neither. */
  ghost predicate UnsettledShape(t: string) {
    exists digits, tail ::
      t == digits + tail && digits != "" && All(IsDigit, digits) && (tail == "" || !(IsPasswordByte(tail[0]) || tail[0] == '/'))
  }

  /** Behind the `@`: a host with such a port, or the start of an IPv6 host and one more byte. */
  ghost predicate HostShape(t: string) {
    || (exists host, port :: t == host + (":" + port) && All(IsHostByte, host) && PortShape(port))
    || (t != "" && t[0] == '[' && |t| > 1)
  }

  ghost predicate PasswordShape(t: string) {
    exists password, host :: t == password + ("@" + host) && password != "" && GoodPassword(password) && HostShape(host)
  }

  ghost predicate AuthorityShape(t: string) {
    || (exists name, rest :: t == name + (":" + rest) && All(IsHostByte, name) && (UnsettledShape(rest) || PasswordShape(rest)))
    || (exists name, host :: t == name + ("@" + host) && All(IsHostByte, name) && HostShape(host))
  }

  /** The two slashes may be missing if the authority starts with a letter or a digit. */
  ghost predicate BehindScheme(t: string) {
    || (|t| >= 2 && t[0] == t[1] == '/' && AuthorityShape(t[2..]))
    || (t != "" && IsAlnum(t[0]) && AuthorityShape(t))
  }

  ghost predicate AbortShape(str: string) {
    exists scheme, rest :: str == scheme + (":" + rest) && All(IsSchemeByte, scheme) && BehindScheme(rest)
  }

  // ---------- One step and many ----------

  ghost predicate Aborts(s: Scan, t: string) { Finish(Run(s, t)) == Aborted }

  /** A state collects `a`, and `b` does not go on with it. */
  ghost predicate Splits(s: Scan, t: string, a: string, b: string) {
    && t == a + b && (forall i | 0 <= i < |a| :: Collects(s, a[i]))
    && (b == "" || !Collects(s, b[0]))
  }

  lemma {:induction false} Split(s: Scan, t: string) returns (a: string, b: string)
    ensures Splits(s, t, a, b)
  {
    hide Collects;
    if t == "" || !Collects(s, t[0]) {
      a, b := "", t;
    } else {
      var c;
      c, b := Split(s, t[1..]);
      a := [t[0]] + c;
    }
  }

  /** Reading to the first byte the state does not collect, and that byte. */
  lemma Onward(s: Scan, t: string, a: string, b: string)
    requires Live(s) && Splits(s, t, a, b)
    ensures Aborts(s, t) <==> Aborts(Collected(s, a), b)
    ensures b != "" ==> (Aborts(Collected(s, a), b) <==> Aborts(Step(Collected(s, a), b[0]), b[1..]))
    ensures Live(Collected(s, a))
  {
    hide Step, Collected, Collects;
    CollectRun(s, a);
    RunAppend(s, a, b);
  }

  lemma Stopped(s: Scan, t: string)
    ensures t == "" || !Live(s) ==> (Aborts(s, t) <==> s.aborted || s.portOrPassword != "")
  {
  }

  lemma {:induction false} PathNeverAborts(s: Scan, t: string)
    requires Live(s) && s.portOrPassword == "" && s.state in {Path, Query, Fragment}
    ensures !Aborts(s, t)
    decreases |t|
  {
    if t != "" { PathNeverAborts(Step(s, t[0]), t[1..]); }
  }

  // ---------- State by state, from the port back to the scheme ----------

  lemma PortEnds(s: Scan, t: string, digits: string, tail: string)
    requires Live(s) && s.state == Port && s.portOrPassword == "" && s.url.port == "" && Splits(s, t, digits, tail)
    ensures Aborts(s, t) <==> digits != "" && (tail == "" || tail[0] != '/')
  {
    hide Run, PortNumber;
    Onward(s, t, digits, tail);
    var c := Collected(s, digits);
    Stopped(c, tail);
    if tail != "" {
      Stopped(Step(c, tail[0]), tail[1..]);
      if tail[0] == '/' { PathNeverAborts(Step(c, '/'), tail[1..]); }
    }
  }

  lemma PortAborts(s: Scan, t: string)
    requires Live(s) && s.state == Port && s.portOrPassword == "" && s.url.port == ""
    ensures Aborts(s, t) <==> PortShape(t)
  {
    hide Aborts;
    var d, b := Split(s, t);
    PortEnds(s, t, d, b);
    forall digits, tail | t == digits + tail && digits != "" && All(IsDigit, digits) && (tail == "" || !(IsDigit(tail[0]) || tail[0] == '/'))
      ensures Aborts(s, t)
    {
      PortEnds(s, t, digits, tail);
    }
  }

  /** The scan in front of a host behind `@`. */
  ghost predicate AtHostStart(s: Scan) {
    Live(s) && s.state == Hostname && s.portOrPassword == "" && s.url.port == "" && s.url.hostname == ""
  }

  lemma HostEnds(s: Scan, t: string, host: string, b: string)
    requires AtHostStart(s) && Splits(s, t, host, b)
    ensures Aborts(s, t) <==>
            b != "" && if b[0] == ':' then PortShape(b[1..]) else b[0] == '[' && host == "" && |b| > 1
  {
    hide Run, PortShape;
    Onward(s, t, host, b);
    var c := Collected(s, host);
    Stopped(c, b);
    if b != "" {
      var n := Step(c, b[0]);
      Stopped(n, b[1..]);
      if b[0] == ':' { PortAborts(n, b[1..]); }
      if b[0] == '/' { PathNeverAborts(n, b[1..]); }
      if b[0] == '[' && host == "" && |b| > 1 { Ipv6Aborts(n, b[1..]); }
    }
  }

  lemma Ipv6Aborts(s: Scan, t: string)
    requires Live(s) && s.state == IPV6Hostname && t != ""
    ensures Aborts(s, t)
  {
    Stopped(Step(s, t[0]), t[1..]);
  }

  lemma ColonSplits(t: string, a: string, c: char, b: string)
    ensures t == a + ([c] + b) ==> t != "" && ([c] + b)[0] == c && ([c] + b)[1..] == b
  {
  }

  lemma HostAborts(s: Scan, t: string)
    requires AtHostStart(s)
    ensures Aborts(s, t) <==> HostShape(t)
  {
    hide Aborts, PortShape;
    var h, b := Split(s, t);
    HostEnds(s, t, h, b);
    if b != "" { assert b == [b[0]] + b[1..]; }
    if Aborts(s, t) && b[0] == ':' { assert t == h + (":" + b[1..]) && All(IsHostByte, h); }
    if Aborts(s, t) && b[0] == '[' { assert t == b; }
    forall host, port | t == host + (":" + port) && All(IsHostByte, host) && PortShape(port)
      ensures Aborts(s, t)
    {
      ColonSplits(t, host, ':', port);
      HostEnds(s, t, host, ":" + port);
    }
    if t != "" && t[0] == '[' && |t| > 1 {
      assert t == "" + t;
      HostEnds(s, t, "", t);
    }
  }

  /** Password bytes and `@`, after which a host follows. */
  ghost predicate RestOfPassword(t: string) {
    exists q, host :: t == q + ("@" + host) && All(IsPasswordByte, q) && HostShape(host)
  }

  ghost predicate InUserInfo(s: Scan) {
    Live(s) && s.portOrPassword == "" && s.url.port == "" && s.url.hostname == ""
  }

  lemma PasswordEnds(s: Scan, t: string, q: string, b: string)
    requires InUserInfo(s) && s.state == Password && Splits(s, t, q, b)
    ensures Aborts(s, t) <==> b != "" && b[0] == '@' && HostShape(b[1..])
  {
    hide Run, HostShape;
    Onward(s, t, q, b);
    var c := Collected(s, q);
    Stopped(c, b);
    if b != "" {
      Stopped(Step(c, b[0]), b[1..]);
      if b[0] == '@' { HostAborts(Step(c, '@'), b[1..]); }
    }
  }

  lemma PasswordAborts(s: Scan, t: string)
    requires InUserInfo(s) && s.state == Password
    ensures Aborts(s, t) <==> RestOfPassword(t)
  {
    hide Aborts, HostShape;
    var q, b := Split(s, t);
    PasswordEnds(s, t, q, b);
    if b != "" { assert b == [b[0]] + b[1..]; }
    if Aborts(s, t) { assert t == q + ("@" + b[1..]) && All(IsPasswordByte, q); }
    forall q, host | t == q + ("@" + host) && All(IsPasswordByte, q) && HostShape(host) ensures Aborts(s, t) {
      ColonSplits(t, q, '@', host);
      PasswordEnds(s, t, q, "@" + host);
    }
  }

  lemma UnsettledEnds(s: Scan, t: string, digits: string, b: string)
    requires InUserInfo(s) && s.state == PortOrPassword && s.url.password == "" && s.url.username == "" && Splits(s, t, digits, b)
    ensures Aborts(s, t) <==>
            if b == "" then digits != ""
            else if IsPasswordByte(b[0]) then RestOfPassword(b[1..])
            else digits != "" && b[0] != '/'
  {
    hide Run, RestOfPassword, PortNumber;
    Onward(s, t, digits, b);
    var c := Collected(s, digits);
    Stopped(c, b);
    if b != "" {
      var n := Step(c, b[0]);
      Stopped(n, b[1..]);
      if IsPasswordByte(b[0]) { PasswordAborts(n, b[1..]); }
      if b[0] == '/' { PathNeverAborts(n, b[1..]); }
    }
  }

  /** A password read as digits up to its first other byte, and the rest. */
  lemma PasswordFrom(digits: string, c: char, q: string, host: string)
    requires All(IsDigit, digits) && IsPasswordByte(c) && !IsDigit(c) && All(IsPasswordByte, q) && HostShape(host)
    ensures PasswordShape(digits + ([c] + (q + ("@" + host))))
  {
    hide HostShape;
    var p := digits + ([c] + q);
    assert p[|digits|] == c;
    assert GoodPassword(p);
    RegroupPassword(digits, [c], q, "@" + host);
    PasswordShaped(p, host);
  }

  lemma RegroupPassword(a: string, b: string, c: string, d: string)
    ensures a + (b + (c + d)) == a + (b + c) + d
  {
  }

  lemma PasswordSplits(password: string, host: string) returns (digits: string, c: char, q: string)
    requires password != "" && GoodPassword(password)
    ensures All(IsDigit, digits) && IsPasswordByte(c) && !IsDigit(c) && All(IsPasswordByte, q)
    ensures password + ("@" + host) == digits + ([c] + (q + ("@" + host)))
  {
    var k := FirstNonDigit(password);
    digits, c, q := password[..k], password[k], password[k + 1..];
    assert password == digits + ([c] + q);
  }

  lemma UnsettledAborts(s: Scan, t: string)
    requires InUserInfo(s) && s.state == PortOrPassword && s.url.password == "" && s.url.username == ""
    ensures Aborts(s, t) <==> UnsettledShape(t) || PasswordShape(t)
  {
    hide Aborts, HostShape, GoodPassword;
    var d, b := Split(s, t);
    UnsettledEnds(s, t, d, b);
    if b != "" { assert b == [b[0]] + b[1..]; }
    if Aborts(s, t) {
      assert All(IsDigit, d);
      if b != "" && IsPasswordByte(b[0]) {
        var q, host :| b[1..] == q + ("@" + host) && All(IsPasswordByte, q) && HostShape(host);
        PasswordFrom(d, b[0], q, host);
      } else {
        assert t == d + b;
      }
    }
    forall digits, tail | t == digits + tail && digits != "" && All(IsDigit, digits) && (tail == "" || !(IsPasswordByte(tail[0]) || tail[0] == '/'))
      ensures Aborts(s, t)
    {
      UnsettledEnds(s, t, digits, tail);
    }
    forall password, host | t == password + ("@" + host) && password != "" && GoodPassword(password) && HostShape(host)
      ensures Aborts(s, t)
    {
      var digits, c, q := PasswordSplits(password, host);
      ColonSplits(t, digits, c, q + ("@" + host));
      UnsettledEnds(s, t, digits, [c] + (q + ("@" + host)));
    }
  }

  /** The scan in front of the authority. */
  ghost predicate AtAuthorityStart(s: Scan) {
    InUserInfo(s) && s.state == UsernameOrHostname && s.url.password == "" && s.url.username == ""
  }

  lemma AuthorityEnds(s: Scan, t: string, name: string, b: string)
    requires AtAuthorityStart(s) && Splits(s, t, name, b)
    ensures Aborts(s, t) <==>
            b != "" && if b[0] == ':' then UnsettledShape(b[1..]) || PasswordShape(b[1..])
                       else b[0] == '@' && HostShape(b[1..])
  {
    hide Run, UnsettledShape, PasswordShape, HostShape;
    Onward(s, t, name, b);
    var c := Collected(s, name);
    Stopped(c, b);
    if b != "" {
      var n := Step(c, b[0]);
      Stopped(n, b[1..]);
      if b[0] == ':' { UnsettledAborts(n, b[1..]); }
      if b[0] == '@' { HostAborts(n, b[1..]); }
      if b[0] == '/' { PathNeverAborts(n, b[1..]); }
    }
  }

  lemma AuthorityAborts(s: Scan, t: string)
    requires AtAuthorityStart(s)
    ensures Aborts(s, t) <==> AuthorityShape(t)
  {
    hide Aborts, UnsettledShape, PasswordShape, HostShape;
    var a, b := Split(s, t);
    AuthorityEnds(s, t, a, b);
    if b != "" { assert b == [b[0]] + b[1..]; }
    if Aborts(s, t) { assert t == a + ([b[0]] + b[1..]) && All(IsHostByte, a); }
    forall name, rest | t == name + (":" + rest) && All(IsHostByte, name) && (UnsettledShape(rest) || PasswordShape(rest))
      ensures Aborts(s, t)
    {
      ColonSplits(t, name, ':', rest);
      AuthorityEnds(s, t, name, ":" + rest);
    }
    forall name, host | t == name + ("@" + host) && All(IsHostByte, name) && HostShape(host) ensures Aborts(s, t) {
      ColonSplits(t, name, '@', host);
      AuthorityEnds(s, t, name, "@" + host);
    }
  }

  lemma BehindSchemeAborts(s: Scan, t: string)
    requires InUserInfo(s) && s.state == SlashAfterScheme1 && s.url.password == "" && s.url.username == "" && s.userOrHost == ""
    ensures Aborts(s, t) <==> BehindScheme(t)
  {
    hide Run, AuthorityShape;
    Stopped(s, t);
    if t != "" {
      var n := Step(s, t[0]);
      Stopped(n, t[1..]);
      assert Aborts(s, t) <==> Aborts(n, t[1..]) by { FirstByte(s, t); }
      if t[0] == '/' {
        if |t| > 1 {
          var a := Step(n, t[1]);
          Stopped(a, t[1..][1..]);
          FirstByte(n, t[1..]);
          assert t[1..][1..] == t[2..];
          if t[1] == '/' { AuthorityAborts(a, t[2..]); }
        }
      } else if IsAlnum(t[0]) {
        var a := s.(state := UsernameOrHostname);
        AuthorityAborts(a, t);
        FirstByte(a, t);
        assert "" + [t[0]] == [t[0]];
      }
    }
  }

  lemma FirstByte(s: Scan, t: string)
    requires Live(s) && t != ""
    ensures Aborts(s, t) <==> Aborts(Step(s, t[0]), t[1..])
  {
  }

  lemma SchemeEnds(str: string, scheme: string, b: string)
    requires Splits(START, str, scheme, b)
    ensures Aborts(START, str) <==> b != "" && b[0] == ':' && BehindScheme(b[1..])
  {
    hide Run, BehindScheme;
    Onward(START, str, scheme, b);
    var c := Collected(START, scheme);
    Stopped(c, b);
    if b != "" {
      Stopped(Step(c, b[0]), b[1..]);
      if b[0] == ':' { BehindSchemeAborts(Step(c, ':'), b[1..]); }
    }
  }

  /** Parsing ends the program exactly on the strings of these shapes. */
  lemma AbortsExactly(str: string)
    ensures Parse(str) == Aborted <==> AbortShape(str)
  {
    hide Aborts, BehindScheme;
    assert Parse(str) == Aborted <==> Aborts(START, str) by { ParseAborts(str); }
    var a, b := Split(START, str);
    SchemeEnds(str, a, b);
    if b != "" { assert b == [b[0]] + b[1..]; }
    if Aborts(START, str) { assert str == a + (":" + b[1..]) && All(IsSchemeByte, a); }
    forall scheme, rest | str == scheme + (":" + rest) && All(IsSchemeByte, scheme) && BehindScheme(rest)
      ensures Aborts(START, str)
    {
      ColonSplits(str, scheme, ':', rest);
      SchemeEnds(str, scheme, ":" + rest);
    }
  }

  lemma ParseAborts(str: string)
    ensures Parse(str) == Aborted <==> Aborts(START, str)
  {
  }

  // ---------- Two families ----------

  lemma PortShaped(port: string)
    requires port != "" && All(IsDigit, port)
    ensures PortShape(port) && UnsettledShape(port)
  {
    assert port == port + "";
  }

  lemma SchemeAborts(scheme: string, authority: string)
    requires All(IsSchemeByte, scheme) && AuthorityShape(authority)
    ensures Parse(scheme + "://" + authority) == Aborted
  {
    hide AuthorityShape;
    var rest := "//" + authority;
    assert rest[2..] == authority;
    assert scheme + "://" + authority == scheme + (":" + rest);
    assert AbortShape(scheme + "://" + authority);
    AbortsExactly(scheme + "://" + authority);
  }

  /** A URL that ends in the digits of a port ends the program, with or without user information. */
  lemma PortWithoutPathAborts(u: Url)
    requires WellFormed(u) && u.port != ""
    ensures Parse(u.scheme + "://" + (UserInfo(u) + u.hostname + ":" + u.port)) == Aborted
  {
    hide GoodPath, PortShape, UnsettledShape, PasswordShape, GoodPassword;
    PortShaped(u.port);
    var host := u.hostname + (":" + u.port);
    assert HostShape(host);
    if u.password != "" {
      assert PasswordShape(u.password + ("@" + host)) by { PasswordShaped(u.password, host); }
      assert UserInfo(u) + u.hostname + ":" + u.port == u.username + (":" + (u.password + ("@" + host)));
    } else if u.username != "" {
      assert UserInfo(u) + u.hostname + ":" + u.port == u.username + ("@" + host);
    } else {
      assert UserInfo(u) + u.hostname + ":" + u.port == u.hostname + (":" + u.port);
    }
    SchemeAborts(u.scheme, UserInfo(u) + u.hostname + ":" + u.port);
  }

  lemma PasswordShaped(password: string, host: string)
    requires password != "" && GoodPassword(password) && HostShape(host)
    ensures PasswordShape(password + ("@" + host))
  {
  }

  /** So does a password made of digits only: it is taken for a port until `@` rejects it. */
  lemma DigitPasswordAborts(u: Url, digits: string)
    requires WellFormed(u) && digits != "" && All(IsDigit, digits)
    ensures Parse(Print(u.(password := digits))) == Aborted
  {
    hide GoodPath, GoodPassword, PasswordShape, UnsettledShape, AuthorityShape, Resource, PortText, Print;
    var tail := "@" + (u.hostname + PortText(u) + Resource(u));
    DigitsUnsettled(digits, tail);
    var authority := u.username + (":" + (digits + tail));
    NameUnsettled(u.username, digits + tail);
    SchemeAborts(u.scheme, authority);
    PrintWithPassword(u, digits);
    RegroupUser(u.scheme, u.username, digits, u.hostname, PortText(u), Resource(u));
  }

  lemma DigitsUnsettled(digits: string, tail: string)
    requires digits != "" && All(IsDigit, digits) && tail != "" && tail[0] == '@'
    ensures UnsettledShape(digits + tail)
  {
  }

  lemma NameUnsettled(name: string, rest: string)
    requires All(IsHostByte, name) && UnsettledShape(rest)
    ensures AuthorityShape(name + (":" + rest))
  {
  }

  lemma PrintWithPassword(u: Url, password: string)
    requires password != ""
    ensures Print(u.(password := password)) ==
            u.scheme + "://" + (u.username + ":" + password + "@") + u.hostname + PortText(u) + Resource(u)
  {
    hide Optional;
  }

  lemma RegroupUser(a: string, b: string, c: string, d: string, e: string, f: string)
    ensures a + "://" + (b + (":" + (c + ("@" + (d + e + f))))) == a + "://" + (b + ":" + c + "@") + d + e + f
  {
  }
}
