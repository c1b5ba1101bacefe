/** The response parser: fragment independence, and the round trip of a whole response, whose headers
    and body come over from the request parser by simulation. */
module HttpResponseRoundTrip {
  import opened Ascii
  import opened HttpCommon
  import opened HttpResponseParser
  import Q = HttpRequestParser
  import R = HttpRequestRuns
  import T = HttpRequestRoundTrip
  import C = HttpChunked
  import S = HttpSimulation

  /** Successive `parse` calls, stopping at the first result other than Incomplete. */
  function ParseAll(m: Machine, fragments: seq<string>): Outcome
    requires m.Ok()
    decreases |fragments|
  {
    if fragments == [] then More(m)
    else
      var o := Consume(m, fragments[0]);
      if o.result.ParsingIncomplete? then ParseAll(o.m, fragments[1..]) else o
  }

  lemma {:induction false} ConsumeAppend(m: Machine, a: string, b: string)
    requires m.Ok()
    ensures var o := Consume(m, a);
            && (o.result.ParsingIncomplete? ==>
                  && Consumed(m, a) == |a|
                  && Consume(m, a + b) == Consume(o.m, b)
                  && Consumed(m, a + b) == |a| + Consumed(o.m, b))
            && (!o.result.ParsingIncomplete? ==>
                  && Consume(m, a + b) == o
                  && Consumed(m, a + b) == Consumed(m, a))
    decreases |a|
  {
    if a == "" {
      assert a + b == b;
    } else {
      assert (a + b)[1..] == a[1..] + b;
      var o := Step(m, a[0]);
      if o.result.ParsingIncomplete? { ConsumeAppend(o.m, a[1..], b); }
    }
  }

  lemma {:induction false} FragmentIndependence(m: Machine, fragments: seq<string>)
    requires m.Ok()
    ensures ParseAll(m, fragments) == Consume(m, R.Join(fragments))
    decreases |fragments|
  {
    if fragments != [] {
      ConsumeAppend(m, fragments[0], R.Join(fragments[1..]));
      var o := Consume(m, fragments[0]);
      if o.result.ParsingIncomplete? { FragmentIndependence(o.m, fragments[1..]); }
    }
  }

  // ---------- Round trip ----------

  function StatusLine(r: Response): string {
    "H" + "T" + "T" + "P" + "/" + Decimal(r.versionMajor) + "." + Decimal(r.versionMinor) + " "
    + Decimal(r.statusCode) + " " + r.status + "\r" + "\n"
  }

  predicate IsStatusByte(c: char) { IsChar(c) && c != '\r' }

  /** The first byte of the status text may even be a CR. */
  ghost predicate GoodStatus(r: Response) {
    100 <= r.statusCode <= 999 && r.status != "" && IsChar(r.status[0]) && All(IsStatusByte, r.status[1..])
  }

  ghost predicate Reaches(s: string, n: Machine) { n.Ok() && Consume(FRESH, s) == More(n) }

  lemma ThenByte(s: string, n: Machine, c: char)
    requires Reaches(s, n) && Step(n, c).result.ParsingIncomplete?
    ensures Reaches(s + [c], Step(n, c).m)
  {
    hide Step;
    ConsumeAppend(FRESH, s, [c]);
    assert [c][1..] == "";
  }

  lemma {:induction false} MajorRun(s: string, n: Machine, v: nat)
    requires Reaches(s, n) && n.state == Line(ResponseHttpVersion_majorStart)
    ensures Reaches(s + Decimal(v), n.(state := Line(ResponseHttpVersion_major), resp := n.resp.(versionMajor := v)))
  {
    var d := DigitChar(v % 10);
    if v < 10 {
      ThenByte(s, n, d);
    } else {
      MajorRun(s, n, v / 10);
      R.Snoc(s, Decimal(v / 10), d);
      ThenByte(s + Decimal(v / 10), n.(state := Line(ResponseHttpVersion_major), resp := n.resp.(versionMajor := v / 10)), d);
    }
  }

  lemma {:induction false} MinorRun(s: string, n: Machine, v: nat)
    requires Reaches(s, n) && n.state == Line(ResponseHttpVersion_minorStart)
    ensures Reaches(s + Decimal(v), n.(state := Line(ResponseHttpVersion_minor), resp := n.resp.(versionMinor := v)))
  {
    var d := DigitChar(v % 10);
    if v < 10 {
      ThenByte(s, n, d);
    } else {
      MinorRun(s, n, v / 10);
      R.Snoc(s, Decimal(v / 10), d);
      ThenByte(s + Decimal(v / 10), n.(state := Line(ResponseHttpVersion_minor), resp := n.resp.(versionMinor := v / 10)), d);
    }
  }

  lemma {:induction false} CodeRun(s: string, n: Machine, v: nat)
    requires Reaches(s, n) && n.state == Line(ResponseHttpVersion_statusCodeStart)
    ensures Reaches(s + Decimal(v), n.(state := Line(ResponseHttpVersion_statusCode), resp := n.resp.(statusCode := v)))
  {
    var d := DigitChar(v % 10);
    if v < 10 {
      ThenByte(s, n, d);
    } else {
      CodeRun(s, n, v / 10);
      R.Snoc(s, Decimal(v / 10), d);
      ThenByte(s + Decimal(v / 10), n.(state := Line(ResponseHttpVersion_statusCode), resp := n.resp.(statusCode := v / 10)), d);
    }
  }

  lemma {:induction false} StatusRun(s: string, n: Machine, t: string)
    requires Reaches(s, n) && n.state == Line(ResponseHttpVersion_statusTextStart) && n.resp.status == ""
    requires t != "" && IsChar(t[0]) && All(IsStatusByte, t[1..])
    ensures Reaches(s + t, n.(state := Line(ResponseHttpVersion_statusText), resp := n.resp.(status := t)))
  {
    var k := |t| - 1;
    assert t == t[..k] + [t[k]];
    R.Snoc(s, t[..k], t[k]);
    if k == 0 {
      R.AppendEmpty(s);
      ThenByte(s, n, t[0]);
    } else {
      assert t[1..][..k - 1] == t[..k][1..] && IsStatusByte(t[1..][k - 1]);
      StatusRun(s, n, t[..k]);
      ThenByte(s + t[..k], n.(state := Line(ResponseHttpVersion_statusText), resp := n.resp.(status := t[..k])), t[k]);
    }
  }

  /** The machine after the status line of `r`. */
  function AfterLine(r: Response): Machine {
    FRESH.(state := Block(HeaderLineStart),
           resp := Response(r.versionMajor, r.versionMinor, [], "", false, r.statusCode, r.status))
  }

  lemma HttpRun()
    ensures Reaches("H" + "T" + "T" + "P" + "/", FRESH.(state := Line(ResponseHttpVersion_majorStart)))
  {
    hide Consume;
    assert Reaches("", FRESH) by { Nothing(); }
    assert "" + "H" == "H";
    ThenByte("", FRESH, 'H');
    ThenByte("H", FRESH.(state := Line(ResponseHttpVersion_ht)), 'T');
    ThenByte("H" + "T", FRESH.(state := Line(ResponseHttpVersion_htt)), 'T');
    ThenByte("H" + "T" + "T", FRESH.(state := Line(ResponseHttpVersion_http)), 'P');
    ThenByte("H" + "T" + "T" + "P", FRESH.(state := Line(ResponseHttpVersion_slash)), '/');
  }

  lemma Nothing()
    ensures Reaches("", FRESH)
  {
  }

  lemma StatusLineRun(r: Response)
    requires GoodStatus(r)
    ensures Reaches(StatusLine(r), AfterLine(r))
  {
    hide Consume, Decimal;
    HttpRun();
    var s, n := "H" + "T" + "T" + "P" + "/", FRESH.(state := Line(ResponseHttpVersion_majorStart));
    MajorRun(s, n, r.versionMajor);
    s, n := s + Decimal(r.versionMajor), n.(state := Line(ResponseHttpVersion_major), resp := n.resp.(versionMajor := r.versionMajor));
    ThenByte(s, n, '.');
    s, n := s + ".", n.(state := Line(ResponseHttpVersion_minorStart));
    MinorRun(s, n, r.versionMinor);
    s, n := s + Decimal(r.versionMinor), n.(state := Line(ResponseHttpVersion_minor), resp := n.resp.(versionMinor := r.versionMinor));
    ThenByte(s, n, ' ');
    s, n := s + " ", n.(state := Line(ResponseHttpVersion_statusCodeStart));
    CodeRun(s, n, r.statusCode);
    s, n := s + Decimal(r.statusCode), n.(state := Line(ResponseHttpVersion_statusCode), resp := n.resp.(statusCode := r.statusCode));
    ThenByte(s, n, ' ');
    s, n := s + " ", n.(state := Line(ResponseHttpVersion_statusTextStart));
    StatusRun(s, n, r.status);
    s, n := s + r.status, n.(state := Line(ResponseHttpVersion_statusText), resp := n.resp.(status := r.status));
    ThenByte(s, n, '\r');
    ThenByte(s + "\r", n.(state := Line(ResponseHttpVersion_newLine)), '\n');
  }

  /** The request that carries the same headers and body under a method with a body. */
  function Carrier(r: Response): Q.Request {
    Q.Request("POST", "/", r.versionMajor, r.versionMinor, r.headers, r.content, r.keepAlive)
  }

  lemma CarrierStarts(r: Response)
    ensures T.GoodToken(Carrier(r).verb) && T.GoodUri(Carrier(r).uri)
    ensures S.Same(T.AfterLine(Carrier(r)), AfterLine(r))
  {
    var s := "POST";
    forall i | 0 <= i < |s| ensures IsToken(s[i]) { assert IsAlpha(s[i]); }
  }

  /** `tail` after the start line of the carrier and after the status line leads to the same end. */
  lemma TailTransfers(r: Response, tail: string)
    requires GoodStatus(r)
    ensures var o := Q.Consume(T.AfterLine(Carrier(r)), tail);
            var p := Consume(FRESH, StatusLine(r) + tail);
            && p.result == o.result && S.Same(o.m, p.m) && o.m.req.verb == "POST" && o.m.req.uri == "/"
            && p.m.resp.status == r.status && p.m.resp.statusCode == r.statusCode
            && Consumed(FRESH, StatusLine(r) + tail) == |StatusLine(r)| + Q.Consumed(T.AfterLine(Carrier(r)), tail)
  {
    hide Q.Consume, Consume, StatusLine, S.BlockImage, S.BodyImage;
    StatusLineRun(r);
    CarrierStarts(r);
    ConsumeAppend(FRESH, StatusLine(r), tail);
    S.Simulate(T.AfterLine(Carrier(r)), AfterLine(r), tail);
  }

  function Tail(r: Response): string { R.HeaderLines(r.headers) + "\r" + "\n" + r.content }

  /** Printing, then parsing, gives back the response; its well-formedness is the request's, for the
      headers of a method with a body. */
  lemma PrintThenParse(r: Response)
    requires GoodStatus(r) && T.WellFormed(Carrier(r))
    ensures var o := Consume(FRESH, StatusLine(r) + Tail(r));
            && o.result.ParsingCompleted? && o.m.resp == r
            && Consumed(FRESH, StatusLine(r) + Tail(r)) == |StatusLine(r) + Tail(r)|
    ensures forall k | 0 <= k < |StatusLine(r) + Tail(r)| :: Consume(FRESH, (StatusLine(r) + Tail(r))[..k]).result.ParsingIncomplete?
  {
    hide Consume, Consumed, StatusLine, T.WellFormed;
    PrintRun(r);
    var t := StatusLine(r) + Tail(r);
    forall k | 0 <= k < |t| ensures Consume(FRESH, t[..k]).result.ParsingIncomplete? {
      ConsumeAppend(FRESH, t[..k], t[k..]);
      ConsumedBound(FRESH, t[..k]);
      assert t[..k] + t[k..] == t;
    }
  }

  lemma ConsumedBound(m: Machine, input: string)
    requires m.Ok()
    ensures Consumed(m, input) <= |input|
  {
  }

  lemma PrintRun(r: Response)
    requires GoodStatus(r) && T.WellFormed(Carrier(r))
    ensures var o := Consume(FRESH, StatusLine(r) + Tail(r));
            && o.result.ParsingCompleted? && o.m.resp == r
            && Consumed(FRESH, StatusLine(r) + Tail(r)) == |StatusLine(r) + Tail(r)|
  {
    hide Q.Consume, Consume, Q.Consumed, Consumed, StatusLine, R.StartLine, R.HeaderLines, S.BlockImage, S.BodyImage;
    var q := Carrier(r);
    var start := R.StartLine(R.Target(q.verb, q.uri), q.versionMajor, q.versionMinor);
    T.PrintThenParse(q);
    T.StartLineRun(q);
    assert R.Print(q) == start + Tail(r) by { Regroup(start, R.HeaderLines(r.headers), r.content); }
    R.ConsumeAppend(Q.FRESH, start, Tail(r));
    TailTransfers(r, Tail(r));
  }

  lemma Regroup(a: string, b: string, c: string)
    ensures a + b + "\r" + "\n" + c == a + (b + "\r" + "\n" + c)
  {
  }

  /** A response with a chunked body: the content is the payload of the encoding. */
  lemma ChunkedResponseParses(r: Response, b: C.ChunkedBody, rest: string)
    requires GoodStatus(r) && T.GoodHead(Carrier(r)) && AnyChunked(r.headers)
    requires C.Good(b) && r.content == C.Payload(b.chunks) && |r.content| <= MAX_SIZE
    ensures var o := Consume(FRESH, StatusLine(r) + (R.HeaderLines(r.headers) + "\r" + "\n" + (C.Encode(b) + rest)));
            o.result.ParsingCompleted? && o.m.resp == r
  {
    hide Q.Consume, Consume, StatusLine, R.StartLine, R.HeaderLines, C.Good, C.Encode, C.Payload, S.BlockImage, S.BodyImage;
    var q := Carrier(r);
    var start := R.StartLine(R.Target(q.verb, q.uri), q.versionMajor, q.versionMinor);
    var tail := R.HeaderLines(r.headers) + "\r" + "\n" + (C.Encode(b) + rest);
    C.ChunkedRequestParses(q, b, rest);
    T.StartLineRun(q);
    Regroup(start, R.HeaderLines(r.headers), C.Encode(b) + rest);
    R.ConsumeAppend(Q.FRESH, start, tail);
    TailTransfers(r, tail);
  }
}
