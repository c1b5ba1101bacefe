/** What parsing leaves of a URL it rejects: nothing but a host whose name had not been settled. */
module UrlRejects {
  import opened Ascii
  import opened UrlParser
  import opened UrlRoundTrip
  import opened UrlAborts
  import opened UrlAccepts

  /** What stops the parser behind a name: a byte no authority has there, or one behind a colon. */
  predicate Stops(t: string) {
    || (t != "" && !IsHostByte(t[0]) && t[0] !in ":@/")
    || (|t| > 1 && t[0] == ':' && !IsDigit(t[1]) && !IsPasswordByte(t[1]) && t[1] != '/')
  }

  ghost predicate IsNameRejected(str: string, scheme: string, front: string, name: string, stop: string) {
    && str == scheme + (":" + (front + (name + stop)))
    && All(IsSchemeByte, scheme) && name != "" && All(IsHostByte, name)
    && (front == "//" || (front == "" && IsAlnum(name[0]))) && Stops(stop)
  }

  /** A scheme, perhaps two slashes, a name, and what no name is followed by. */
  ghost predicate NameRejected(str: string, name: string) {
    exists scheme, front, stop :: IsNameRejected(str, scheme, front, name, stop)
  }

  lemma {:induction false} RejectClears(s: Scan, t: string)
    requires Live(s)
    ensures !Run(s, t).valid ==> Run(s, t).url == EMPTY_URL
    decreases |t|
  {
    if t != "" {
      var n := Step(s, t[0]);
      assert !n.valid ==> n.url == EMPTY_URL;
      if Live(n) { RejectClears(n, t[1..]); }
    }
  }

  // ---------- Which name is left ----------

  ghost predicate Leaves(s: Scan, t: string, name: string) {
    var e := Run(s, t);
    !e.valid && !e.aborted && e.portOrPassword == "" && e.userOrHost == name
  }

  predicate Settled(s: Scan) {
    s.userOrHost == "" && s.state in {Password, Hostname, IPV6Hostname, Port, Path, Query, Fragment}
  }

  lemma {:induction false} SettledStays(s: Scan, t: string)
    requires Settled(s)
    ensures Run(s, t).userOrHost == ""
    decreases |t|
  {
    if t != "" && Live(s) {
      assert Settled(Step(s, t[0]));
      SettledStays(Step(s, t[0]), t[1..]);
    }
  }

  /** Digits that may be a port or a password: no rejection leaves the name, it ends the program or finds it settled. */
  lemma {:induction false} DigitsLeaveNothing(s: Scan, t: string)
    requires s.state == PortOrPassword && s.portOrPassword != "" && s.url.username == s.url.hostname == ""
    ensures Run(s, t).portOrPassword != "" || Run(s, t).userOrHost == ""
    decreases |t|
  {
    if t != "" && Live(s) {
      var n := Step(s, t[0]);
      if Settled(n) { SettledStays(n, t[1..]); } else if n.valid { DigitsLeaveNothing(n, t[1..]); }
    }
  }

  lemma OneByte(s: Scan, t: string)
    requires Live(s) && t != ""
    ensures Run(s, t) == Run(Step(s, t[0]), t[1..])
    ensures !Live(Step(s, t[0])) ==> Run(s, t) == Step(s, t[0])
  {
  }

  lemma ColonLeaves(s: Scan, t: string, name: string)
    requires Live(s) && s.state == PortOrPassword && s.portOrPassword == "" && s.url.username == s.url.hostname == "" && name != ""
    ensures Leaves(s, t, name) <==> name == s.userOrHost && t != "" && !IsDigit(t[0]) && !IsPasswordByte(t[0]) && t[0] != '/'
  {
    if t != "" {
      hide Run;
      OneByte(s, t);
      var n := Step(s, t[0]);
      if Settled(n) { SettledStays(n, t[1..]); } else if n.valid { DigitsLeaveNothing(n, t[1..]); }
    }
  }

  lemma NameLeaves(s: Scan, t: string, a: string, b: string, name: string)
    requires AtAuthorityFront(s) && Splits(s, t, a, b) && name != ""
    ensures Leaves(s, t, name) <==> name == a && Stops(b)
  {
    hide Run;
    CollectRun(s, a);
    RunAppend(s, a, b);
    var c := Collected(s, a);
    assert "" + a == a;
    if b == "" {
      AtItsEnd(c);
    } else {
      OneByte(c, b);
      var n := Step(c, b[0]);
      if b[0] == ':' {
        ColonLeaves(n, b[1..], name);
      } else if Settled(n) {
        SettledStays(n, b[1..]);
      }
    }
  }

  lemma AtItsEnd(s: Scan)
    ensures Run(s, "") == s
  {
  }

  /** What comes behind the scheme and its colon. */
  ghost predicate IsNameBehind(t: string, front: string, name: string, stop: string) {
    && t == front + (name + stop) && name != "" && All(IsHostByte, name)
    && (front == "//" || (front == "" && IsAlnum(name[0]))) && Stops(stop)
  }

  lemma StopsSplit(s: Scan, t: string, name: string, stop: string)
    requires AtAuthorityFront(s) && t == name + stop && All(IsHostByte, name) && Stops(stop)
    ensures Splits(s, t, name, stop)
  {
  }

  lemma AuthorityLeaves(s: Scan, t: string, name: string)
    requires AtAuthorityFront(s) && name != ""
    ensures Leaves(s, t, name) <==> All(IsHostByte, name) && exists stop :: t == name + stop && Stops(stop)
  {
    hide Run, Stops;
    var a, b := Split(s, t);
    NameLeaves(s, t, a, b, name);
    forall stop | t == name + stop && Stops(stop) && All(IsHostByte, name) ensures Leaves(s, t, name) {
      StopsSplit(s, t, name, stop);
      NameLeaves(s, t, name, stop, name);
    }
  }

  lemma BehindSchemeLeaves(s: Scan, t: string, name: string)
    requires Live(s) && s.state == SlashAfterScheme1 && s.portOrPassword == s.userOrHost == "" && NoAuthority(s.url) && name != ""
    ensures Leaves(s, t, name) <==> exists front, stop :: IsNameBehind(t, front, name, stop)
  {
    hide Run, Stops;
    AtItsEnd(s);
    if t == "" {
      assert !Leaves(s, t, name);
    } else {
      OneByte(s, t);
      var n := Step(s, t[0]);
      if t[0] == '/' {
        AtItsEnd(n);
        if |t| > 1 {
          OneByte(n, t[1..]);
          assert t[1..][1..] == t[2..];
          var a := Step(n, t[1]);
          if t[1] == '/' { AuthorityLeaves(a, t[2..], name); }
        } else {
          assert t[1..] == "";
        }
      } else if IsAlnum(t[0]) {
        var a := s.(state := UsernameOrHostname);
        AuthorityLeaves(a, t, name);
        OneByte(a, t);
        assert "" + [t[0]] == [t[0]];
      }
    }
    if Leaves(s, t, name) {
      var k := if t[0] == '/' then 2 else 0;
      var stop :| t[k..] == name + stop && Stops(stop);
      assert t == t[..k] + (name + stop) && t[..k] == if k == 2 then "//" else "";
      assert IsNameBehind(t, t[..k], name, stop);
    }
    forall front, stop | IsNameBehind(t, front, name, stop) ensures Leaves(s, t, name) {
      assert t[|front|..] == name + stop;
      assert front == "" ==> t[0] == name[0];
    }
  }

  lemma SchemeLeaves(str: string, scheme: string, b: string, name: string)
    requires Splits(START, str, scheme, b) && name != ""
    ensures Leaves(START, str, name) <==> b != "" && b[0] == ':' && exists front, stop :: IsNameBehind(b[1..], front, name, stop)
  {
    hide Run, Stops;
    CollectRun(START, scheme);
    RunAppend(START, scheme, b);
    var c := Collected(START, scheme);
    assert "" + scheme == scheme;
    if b == "" {
      AtItsEnd(c);
    } else {
      OneByte(c, b);
      if b[0] == ':' { BehindSchemeLeaves(Step(c, ':'), b[1..], name); }
    }
  }

  lemma NameLeft(str: string, name: string)
    requires name != ""
    ensures Leaves(START, str, name) <==> NameRejected(str, name)
  {
    hide Run, Stops;
    var a, b := Split(START, str);
    SchemeLeaves(str, a, b, name);
    if Leaves(START, str, name) {
      var front, stop :| IsNameBehind(b[1..], front, name, stop);
      assert b == ":" + b[1..];
      assert IsNameRejected(str, a, front, name, stop);
    }
    forall scheme, front, stop | IsNameRejected(str, scheme, front, name, stop) ensures Leaves(START, str, name) {
      var rest := front + (name + stop);
      ColonSplits(str, scheme, ':', rest);
      SchemeLeaves(str, scheme, ":" + rest, name);
      assert IsNameBehind(rest, front, name, stop);
    }
  }

  ghost predicate Accepted(str: string) { exists u :: UrlShape(str, u) }

  /** A string is rejected exactly if it spells no URL and does not end the program. All components are then empty,
      but for the host: it is the name behind the scheme when the parser stopped at that name or at a colon behind it. */
  lemma RejectsExactly(str: string, u: Url)
    ensures Parse(str) == Returned(false, u) <==>
            && !Accepted(str) && !AbortShape(str)
            && u == EMPTY_URL.(hostname := u.hostname)
            && if u.hostname == "" then forall name :: !NameRejected(str, name) else NameRejected(str, u.hostname)
  {
    hide Run, UrlShape, NameRejected, AbortShape;
    AbortsExactly(str);
    AcceptsAs(str);
    RejectClears(START, str);
    NoEmptyName(str);
    var e := Run(START, str);
    if e.userOrHost != "" { NameLeft(str, e.userOrHost); }
    forall name ensures NameRejected(str, name) && !e.valid && !e.aborted && e.portOrPassword == "" ==> name == e.userOrHost {
      if name != "" { NameLeft(str, name); }
    }
  }

  lemma NoEmptyName(str: string)
    ensures !NameRejected(str, "")
  {
  }

  lemma AcceptsAs(str: string)
    ensures Accepted(str) <==> Parse(str).Returned? && Parse(str).valid
  {
    hide Parse, UrlShape;
    if Parse(str).Returned? { AcceptsExactly(str, Parse(str).url); }
    forall u | UrlShape(str, u) ensures Parse(str) == Returned(true, u) { AcceptsExactly(str, u); }
  }
}
