/** Printing and parsing URLs are inverse on exactly the component tuples the parser delivers. */
module UrlRoundTrip {
  import opened Ascii
  import opened UrlParser

  predicate IsPathByte(c: char) { c != '?' && c != '#' }

  ghost predicate HasNonDigit(s: string) { exists i :: 0 <= i < |s| && !IsDigit(s[i]) }

  ghost predicate GoodPassword(p: string) { p == "" || (All(IsPasswordByte, p) && HasNonDigit(p)) }

  ghost predicate GoodPath(p: string) { p != "" && p[0] == '/' && All(IsPathByte, p) }

  ghost predicate GoodPort(port: string, n: nat) { All(IsDigit, port) && n == PortNumber(port) }

  ghost predicate WellFormed(u: Url) {
    && All(IsSchemeByte, u.scheme) && All(IsHostByte, u.username) && GoodPassword(u.password)
    && All(IsHostByte, u.hostname) && GoodPort(u.port, u.integerPort)
    && GoodPath(u.path) && All(IsPathByte, u.query)
  }

  function UserInfo(u: Url): string {
    if u.password != "" then u.username + ":" + u.password + "@"
    else if u.username != "" then u.username + "@"
    else ""
  }

  function PortText(u: Url): string { if u.port == "" then "" else ":" + u.port }

  function Optional(mark: string, s: string): string { if s == "" then "" else mark + s }

  function Resource(u: Url): string { u.path + Optional("?", u.query) + Optional("#", u.fragment) }

  function Print(u: Url): string {
    u.scheme + "://" + UserInfo(u) + u.hostname + PortText(u) + Resource(u)
  }

  // ---------- Runs ----------

  ghost predicate Live(s: Scan) { s.valid && !s.aborted }

  ghost predicate Reaches(a: Scan, t: string, b: Scan) { Live(b) && Run(a, t) == b }

  lemma {:induction false} RunAppend(a: Scan, s: string, t: string)
    ensures Run(a, s + t) == Run(Run(a, s), t)
    decreases |s|
  {
    if s == "" {
      assert s + t == t;
    } else if Live(a) {
      assert (s + t)[1..] == s[1..] + t;
      RunAppend(Step(a, s[0]), s[1..], t);
    }
  }

  lemma Then(a: Scan, s: string, b: Scan, t: string, c: Scan)
    requires Reaches(a, s, b) && Reaches(b, t, c)
    ensures Reaches(a, s + t, c)
  {
    RunAppend(a, s, t);
  }

  lemma ThenByte(a: Scan, s: string, b: Scan, x: char)
    requires Reaches(a, s, b) && Live(Step(b, x))
    ensures Reaches(a, s + [x], Step(b, x))
  {
    hide Step;
    assert [x][1..] == "";
    assert Run(b, [x]) == Step(b, x);
    Then(a, s, b, [x], Step(b, x));
  }

  /** States that collect the bytes of one component, and the scan after collecting `t`. */
  predicate Collects(s: Scan, c: char) {
    match s.state
    case Scheme => IsSchemeByte(c)
    case UsernameOrHostname => IsHostByte(c)
    case Password => IsPasswordByte(c)
    case Hostname => IsHostByte(c)
    case PortOrPassword => IsDigit(c)
    case Port => IsDigit(c)
    case Path => IsPathByte(c)
    case Query => IsPathByte(c)
    case Fragment => true
    case _ => false
  }

  function Collected(s: Scan, t: string): Scan {
    var u := s.url;
    match s.state
    case Scheme => s.(url := u.(scheme := u.scheme + t))
    case UsernameOrHostname => s.(userOrHost := s.userOrHost + t)
    case Password => s.(url := u.(password := u.password + t))
    case Hostname => s.(url := u.(hostname := u.hostname + t))
    case PortOrPassword => s.(portOrPassword := s.portOrPassword + t)
    case Port => s.(portOrPassword := s.portOrPassword + t)
    case Path => s.(url := u.(path := u.path + t))
    case Query => s.(url := u.(query := u.query + t))
    case Fragment => s.(url := u.(fragment := u.fragment + t))
    case _ => s
  }

  lemma Associate(x: string, t: string, c: char)
    ensures x + t + [c] == x + (t + [c])
  {
  }

  lemma CollectMore(s: Scan, t: string, c: char)
    ensures Collected(Collected(s, t), [c]) == Collected(s, t + [c])
  {
    var u := s.url;
    match s.state
    case Scheme => Associate(u.scheme, t, c);
    case UsernameOrHostname => Associate(s.userOrHost, t, c);
    case Password => Associate(u.password, t, c);
    case Hostname => Associate(u.hostname, t, c);
    case PortOrPassword => Associate(s.portOrPassword, t, c);
    case Port => Associate(s.portOrPassword, t, c);
    case Path => Associate(u.path, t, c);
    case Query => Associate(u.query, t, c);
    case Fragment => Associate(u.fragment, t, c);
    case _ =>
  }

  lemma {:induction false} CollectRun(s: Scan, t: string)
    requires Live(s) && forall i | 0 <= i < |t| :: Collects(s, t[i])
    ensures Reaches(s, t, Collected(s, t))
  {
    if t == "" {
      assert forall x: string :: x + t == x;
    } else {
      var k := |t| - 1;
      assert t == t[..k] + [t[k]];
      CollectRun(s, t[..k]);
      var b := Collected(s, t[..k]);
      assert Collects(s, t[k]);
      assert Step(b, t[k]) == Collected(b, [t[k]]);
      CollectMore(s, t[..k], t[k]);
      ThenByte(s, t[..k], b, t[k]);
    }
  }

  // ---------- Print, then parse ----------

  /** The scan in front of the authority, in front of a host after `@`, and in front of the path. */
  function AtAuthority(u: Url): Scan {
    START.(state := UsernameOrHostname, url := EMPTY_URL.(scheme := u.scheme, path := "/"))
  }

  function AtHost(u: Url): Scan {
    START.(state := Hostname, url := EMPTY_URL.(scheme := u.scheme, username := u.username, password := u.password, path := "/"))
  }

  function AtPath(u: Url): Scan {
    START.(state := Path, url := Url(u.scheme, u.username, u.password, u.hostname, u.port, "/", "", "", u.integerPort))
  }

  lemma Empty(s: string)
    ensures "" + s == s && s + "" == s
  {
  }

  lemma SchemeRun(u: Url)
    requires WellFormed(u)
    ensures Reaches(START, u.scheme + ":" + "/" + "/", AtAuthority(u))
  {
    hide Run, GoodPassword, GoodPath, GoodPort;
    CollectRun(START, u.scheme);
    Empty(u.scheme);
    var s := START.(url := EMPTY_URL.(scheme := u.scheme, path := "/"));
    ThenByte(START, u.scheme, s, ':');
    ThenByte(START, u.scheme + ":", s.(state := SlashAfterScheme1), '/');
    ThenByte(START, u.scheme + ":" + "/", s.(state := SlashAfterScheme2), '/');
  }

  /** From the authority, without user information, up to and including the slash of the path. */
  lemma PlainHostRun(u: Url)
    requires WellFormed(u) && u.username == "" && u.password == ""
    ensures Reaches(AtAuthority(u), u.hostname + PortText(u) + "/", AtPath(u))
  {
    hide Run, GoodPassword, GoodPath, PortNumber;
    var a := AtAuthority(u);
    CollectRun(a, u.hostname);
    Empty(u.hostname);
    var h := a.(userOrHost := u.hostname);
    if u.port == "" {
      EmptyParts();
      ThenByte(a, u.hostname, h, '/');
    } else {
      ThenByte(a, u.hostname, h, ':');
      var p := h.(state := PortOrPassword);
      CollectRun(p, u.port);
      Empty(u.port);
      Then(a, u.hostname + ":", p, u.port, p.(portOrPassword := u.port));
      assert u.hostname + ":" + u.port == u.hostname + PortText(u);
      ThenByte(a, u.hostname + ":" + u.port, p.(portOrPassword := u.port), '/');
    }
  }

  /** The user information is read as such even when the password starts like a port. */
  lemma UserInfoRun(u: Url)
    requires WellFormed(u) && (u.username != "" || u.password != "")
    ensures Reaches(AtAuthority(u), UserInfo(u), AtHost(u))
  {
    hide Run, GoodPath, GoodPort;
    var a := AtAuthority(u);
    CollectRun(a, u.username);
    Empty(u.username);
    var n := a.(userOrHost := u.username);
    if u.password == "" {
      ThenByte(a, u.username, n, '@');
    } else {
      ThenByte(a, u.username, n, ':');
      PasswordRun(u, n.(state := PortOrPassword));
      var p := AtHost(u).(state := Password);
      Then(a, u.username + ":", n.(state := PortOrPassword), u.password, p);
      ThenByte(a, u.username + ":" + u.password, p, '@');
    }
  }

  lemma PasswordRun(u: Url, p: Scan)
    requires GoodPassword(u.password) && u.password != ""
    requires p == AtAuthority(u).(state := PortOrPassword, userOrHost := u.username)
    ensures Reaches(p, u.password, AtHost(u).(state := Password))
  {
    hide Run;
    var w := u.password;
    var k := FirstNonDigit(w);
    CollectRun(p, w[..k]);
    Empty(w[..k]);
    ThenByte(p, w[..k], p.(portOrPassword := w[..k]), w[k]);
    assert w[..k] + [w[k]] == w[..k + 1];
    var q := AtHost(u.(password := w[..k + 1])).(state := Password);
    CollectRun(q, w[k + 1..]);
    Then(p, w[..k + 1], q, w[k + 1..], AtHost(u).(state := Password)) by { assert w[..k + 1] + w[k + 1..] == w; }
    assert w[..k + 1] + w[k + 1..] == w;
  }

  lemma {:induction false} FirstNonDigit(w: string) returns (k: nat)
    requires HasNonDigit(w)
    ensures k < |w| && !IsDigit(w[k]) && All(IsDigit, w[..k])
  {
    if IsDigit(w[0]) {
      var i :| 0 <= i < |w| && !IsDigit(w[i]);
      assert w[1..][i - 1] == w[i];
      k := FirstNonDigit(w[1..]);
      assert w[..k + 1] == [w[0]] + w[1..][..k];
      k := k + 1;
    } else {
      k := 0;
    }
  }

  lemma UserHostRun(u: Url)
    requires WellFormed(u)
    ensures Reaches(AtHost(u), u.hostname + PortText(u) + "/", AtPath(u))
  {
    hide Run, GoodPassword, GoodPath, PortNumber;
    var a := AtHost(u);
    CollectRun(a, u.hostname);
    Empty(u.hostname);
    var h := a.(url := a.url.(hostname := u.hostname));
    if u.port == "" {
      EmptyParts();
      ThenByte(a, u.hostname, h, '/');
    } else {
      ThenByte(a, u.hostname, h, ':');
      var p := h.(state := Port);
      CollectRun(p, u.port);
      Empty(u.port);
      Then(a, u.hostname + ":", p, u.port, p.(portOrPassword := u.port));
      assert u.hostname + ":" + u.port == u.hostname + PortText(u);
      ThenByte(a, u.hostname + ":" + u.port, p.(portOrPassword := u.port), '/');
    }
  }

  /** A marked component that is left out when empty. */
  lemma OptionalRun(a: Scan, t: string, s: Scan, mark: char, to: State, v: string)
    requires Reaches(a, t, s) && Step(s, mark) == s.(state := to)
    requires forall i | 0 <= i < |v| :: Collects(s.(state := to), v[i])
    ensures Reaches(a, t + Optional([mark], v), if v == "" then s else Collected(s.(state := to), v))
  {
    hide Run, Step, Collected, Collects;
    if v == "" {
      Empty(t);
    } else {
      var q := s.(state := to);
      ThenByte(a, t, s, mark);
      CollectRun(q, v);
      Then(a, t + [mark], q, v, Collected(q, v));
      assert t + [mark] + v == t + ([mark] + v);
    }
  }

  lemma ResourceRun(u: Url)
    requires WellFormed(u)
    ensures var s := Run(AtPath(u), u.path[1..] + Optional("?", u.query) + Optional("#", u.fragment));
            Live(s) && s.userOrHost == "" && s.portOrPassword == "" && s.url == u
  {
    hide Run, GoodPassword, GoodPort, Optional;
    var a, t := AtPath(u), u.path[1..];
    CollectRun(a, t);
    assert "/" + t == u.path;
    var s := a.(url := a.url.(path := u.path));
    OptionalRun(a, t, s, '?', Query, u.query);
    Empty(u.query);
    var q := if u.query == "" then s else s.(state := Query, url := s.url.(query := u.query));
    OptionalRun(a, t + Optional("?", u.query), q, '#', Fragment, u.fragment);
    Empty(u.fragment);
  }

  /** A well-formed URL is read back component by component. */
  lemma PrintThenParse(u: Url)
    requires WellFormed(u)
    ensures Parse(Print(u)) == Returned(true, u)
  {
    hide Run, Optional, PortText, GoodPassword, GoodPort;
    var lead, host := u.scheme + ":" + "/" + "/", u.hostname + PortText(u) + "/";
    var rest := u.path[1..] + Optional("?", u.query) + Optional("#", u.fragment);
    SchemeRun(u);
    if u.username == "" && u.password == "" {
      PlainHostRun(u);
    } else {
      UserInfoRun(u);
      UserHostRun(u);
      Then(AtAuthority(u), UserInfo(u), AtHost(u), host, AtPath(u));
    }
    Empty(host);
    Then(START, lead, AtAuthority(u), UserInfo(u) + host, AtPath(u));
    ResourceRun(u);
    RunAppend(START, lead + (UserInfo(u) + host), rest);
    assert u.path == "/" + u.path[1..];
    Regroup(u.scheme, UserInfo(u), u.hostname, PortText(u), u.path[1..], Optional("?", u.query), Optional("#", u.fragment));
  }

  lemma Regroup(a: string, b: string, c: string, d: string, e: string, f: string, g: string)
    ensures a + ":" + "/" + "/" + (b + (c + d + "/")) + (e + f + g) == a + "://" + b + c + d + ("/" + e + f + g)
  {
  }

  // ---------- Parse, then print ----------

  /** What the components look like between two characters, state by state. */
  ghost predicate Inv(s: Scan) {
    var u := s.url;
    && All(IsSchemeByte, u.scheme) && All(IsHostByte, u.username) && GoodPassword(u.password)
    && All(IsHostByte, u.hostname) && All(IsHostByte, s.userOrHost) && All(IsDigit, s.portOrPassword)
    && GoodPort(u.port, u.integerPort) && GoodPath(u.path) && All(IsPathByte, u.query)
    && (s.state in {Scheme, SlashAfterScheme1, SlashAfterScheme2, UsernameOrHostname, PortOrPassword} ==>
          u.username == u.password == u.hostname == "")
    && (s.state in {Password, Hostname, IPV6Hostname, Port, Path, Query, Fragment} ==> s.userOrHost == "")
    && (s.state == Password ==> u.password != "")
    && (s.state !in {PortOrPassword, Port} ==> s.portOrPassword == "")
    && (s.state !in {Path, Query, Fragment} ==> u.port == "" && u.integerPort == 0)
  }

  lemma PasswordGrows(p: string, c: char)
    requires (All(IsDigit, p) && !IsDigit(c)) || (p != "" && GoodPassword(p))
    requires IsPasswordByte(c)
    ensures GoodPassword(p + [c])
  {
    if p != "" && GoodPassword(p) {
      var i :| 0 <= i < |p| && !IsDigit(p[i]);
      assert (p + [c])[i] == p[i];
    } else {
      assert (p + [c])[|p|] == c;
    }
  }

  lemma StepKeepsInv(s: Scan, c: char)
    requires Live(s) && Inv(s)
    ensures Live(Step(s, c)) ==> Inv(Step(s, c))
  {
    hide GoodPassword, IsHostByte, IsSchemeByte, PortNumber;
    var u := s.url;
    match s.state
    case Password => if IsPasswordByte(c) { PasswordGrows(u.password, c); }
    case PortOrPassword => if IsPasswordByte(c) && !IsDigit(c) { PasswordGrows(s.portOrPassword, c); }
    case UsernameOrHostname => assert GoodPassword("") by { EmptyParts(); }
    case SlashAfterScheme1 => if IsAlnum(c) { assert IsHostByte(c) by { AlnumIsHost(c); } }
    case _ =>
  }

  lemma EmptyParts()
    ensures GoodPassword("") && PortNumber("") == 0
  {
  }

  lemma AlnumIsHost(c: char)
    requires IsAlnum(c)
    ensures IsHostByte(c)
  {
  }

  lemma {:induction false} RunKeepsInv(s: Scan, str: string)
    requires Live(s) ==> Inv(s)
    ensures Live(Run(s, str)) ==> Inv(Run(s, str))
    decreases |str|
  {
    hide Inv, Step;
    if str != "" && Live(s) {
      StepKeepsInv(s, str[0]);
      RunKeepsInv(Step(s, str[0]), str[1..]);
    }
  }

  /** Every URL the parser accepts is well formed. */
  lemma ParsedIsWellFormed(str: string)
    requires Parse(str).Returned? && Parse(str).valid
    ensures WellFormed(Parse(str).url)
  {
    EmptyParts();
    RunKeepsInv(START, str);
  }

  /** The tuples that survive printing and parsing are exactly the well-formed ones. */
  lemma RoundTripExactly(u: Url)
    ensures Parse(Print(u)) == Returned(true, u) <==> WellFormed(u)
  {
    hide WellFormed, Run;
    if WellFormed(u) { PrintThenParse(u); }
    if Parse(Print(u)) == Returned(true, u) { ParsedIsWellFormed(Print(u)); }
  }

  /** Whatever was parsed, its canonical print parses to the same components. */
  lemma ParsePrintParse(str: string)
    requires Parse(str).Returned? && Parse(str).valid
    ensures Parse(Print(Parse(str).url)) == Parse(str)
  {
    ParsedIsWellFormed(str);
    PrintThenParse(Parse(str).url);
  }

  // ---------- Ports ----------

  /** `httpPort` is the number the digits denote exactly up to 65535, and the scheme's default without digits. */
  lemma HttpPortDenotes(u: Url)
    requires WellFormed(u)
    ensures u.port != "" ==> (HttpPort(u) == ReadDigits(u.port, 0) <==> ReadDigits(u.port, 0) <= 0xFFFF)
    ensures u.port == "" ==> HttpPort(u) == if u.scheme == "https" then 443 else 80
  {
    if u.port != "" {
      assert IsDigit(u.port[0]);
      assert Atoi(u.port) == ReadDigits(u.port, 0);
    }
  }

  /** A URL printed with port `n` is read back with its digits, and `httpPort` gives `n` exactly up to 65535. */
  lemma PortIsReadBack(u: Url, n: nat)
    requires WellFormed(u)
    ensures var v := u.(port := Decimal(n), integerPort := n % 0x1_0000);
            Parse(Print(v)) == Returned(true, v) && (HttpPort(v) == n <==> n <= 0xFFFF)
  {
    hide Run, GoodPassword, GoodPath;
    AtoiDecimal(n);
    DecimalDigits(n);
    PrintThenParse(u.(port := Decimal(n), integerPort := n % 0x1_0000));
  }
}
