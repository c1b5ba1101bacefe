/** Well-formed requests: each prints to bytes that a fresh parser reads back, and every request the
    parser completes outside the chunked coding is one of them. */
module HttpRequestRoundTrip {
  import opened Ascii
  import opened HttpCommon
  import opened HttpRequestParser
  import opened HttpRequestRuns

  predicate IsUriByte(c: char) { !IsControl(c) && c != ' ' }

  predicate IsFieldByte(c: char) { !IsControl(c) }

  /** The first byte of a URI may even be a space. */
  ghost predicate GoodUri(uri: string) { uri != "" && !IsControl(uri[0]) && All(IsUriByte, uri[1..]) }

  ghost predicate GoodToken(s: string) { s != "" && All(IsToken, s) }

  ghost predicate GoodHeader(h: HeaderItem) { GoodToken(h.name) && All(IsFieldByte, h.value) }

  ghost predicate GoodHeaders(headers: seq<HeaderItem>) { forall h | h in headers :: GoodHeader(h) }

  /** A negative Content-Length does not fit `reserve`. */
  predicate FitsSize(h: HeaderItem) { IsContentLength(h) ==> ToSize(Atoi(h.value)) <= MAX_SIZE }

  function BodyLength(verb: string, headers: seq<HeaderItem>): nat {
    if HasBody(verb) then Announced(headers) else 0
  }

  predicate Chunked(verb: string, headers: seq<HeaderItem>) { HasBody(verb) && AnyChunked(headers) }

  /** A header block with its start line, as the parser accepts it. */
  ghost predicate GoodHead(r: Request) {
    && GoodToken(r.verb) && GoodUri(r.uri) && GoodHeaders(r.headers)
    && (HasBody(r.verb) ==> forall h | h in r.headers :: FitsSize(h))
    && r.keepAlive == KeepAlive(r.headers, r.versionMajor, r.versionMinor, false)
  }

  ghost predicate WellFormed(r: Request) {
    GoodHead(r) && !Chunked(r.verb, r.headers) && |r.content| == BodyLength(r.verb, r.headers)
  }

  // ---------- Print, then parse ----------

  ghost predicate Reaches(m: Machine, s: string, n: Machine) { m.Ok() && Consume(m, s) == More(n) }

  lemma ThenByte(m: Machine, s: string, n: Machine, c: char)
    requires Reaches(m, s, n) && Step(n, c).result.ParsingIncomplete?
    ensures Reaches(m, s + [c], Step(n, c).m)
  {
    hide Step;
    ConsumeAppend(m, s, [c]);
    assert [c][1..] == "";
  }

  lemma {:induction false} VerbRun(verb: string)
    requires GoodToken(verb)
    ensures Reaches(FRESH, verb, FRESH.(state := Line(RequestMethod), req := EMPTY_REQUEST.(verb := verb)))
  {
    var k := |verb| - 1;
    assert verb == verb[..k] + [verb[k]];
    if k == 0 {
      ThenByte(FRESH, "", FRESH, verb[0]);
    } else {
      VerbRun(verb[..k]);
      ThenByte(FRESH, verb[..k], FRESH.(state := Line(RequestMethod), req := EMPTY_REQUEST.(verb := verb[..k])), verb[k]);
    }
  }

  lemma {:induction false} UriRun(s: string, n: Machine, uri: string)
    requires Reaches(FRESH, s, n) && n.state == Line(RequestUriStart) && n.req.uri == "" && GoodUri(uri)
    ensures Reaches(FRESH, s + uri, n.(state := Line(RequestUri), req := n.req.(uri := uri)))
  {
    var k := |uri| - 1;
    assert uri == uri[..k] + [uri[k]];
    Snoc(s, uri[..k], uri[k]);
    if k == 0 {
      AppendEmpty(s);
      ThenByte(FRESH, s, n, uri[0]);
    } else {
      assert uri[1..][..k - 1] == uri[..k][1..] && IsUriByte(uri[1..][k - 1]);
      UriRun(s, n, uri[..k]);
      ThenByte(FRESH, s + uri[..k], n.(state := Line(RequestUri), req := n.req.(uri := uri[..k])), uri[k]);
    }
  }

  lemma {:induction false} MajorRun(s: string, n: Machine, v: nat)
    requires Reaches(FRESH, s, n) && n.state == Line(RequestHttpVersion_majorStart)
    ensures Reaches(FRESH, s + Decimal(v), n.(state := Line(RequestHttpVersion_major), req := n.req.(versionMajor := v)))
  {
    var d := DigitChar(v % 10);
    if v < 10 {
      ThenByte(FRESH, s, n, d);
    } else {
      MajorRun(s, n, v / 10);
      Snoc(s, Decimal(v / 10), d);
      ThenByte(FRESH, s + Decimal(v / 10),
               n.(state := Line(RequestHttpVersion_major), req := n.req.(versionMajor := v / 10)), d);
    }
  }

  lemma {:induction false} MinorRun(s: string, n: Machine, v: nat)
    requires Reaches(FRESH, s, n) && n.state == Line(RequestHttpVersion_minorStart)
    ensures Reaches(FRESH, s + Decimal(v), n.(state := Line(RequestHttpVersion_minor), req := n.req.(versionMinor := v)))
  {
    var d := DigitChar(v % 10);
    if v < 10 {
      ThenByte(FRESH, s, n, d);
    } else {
      MinorRun(s, n, v / 10);
      Snoc(s, Decimal(v / 10), d);
      ThenByte(FRESH, s + Decimal(v / 10),
               n.(state := Line(RequestHttpVersion_minor), req := n.req.(versionMinor := v / 10)), d);
    }
  }

  lemma SlashRun(s: string, n: Machine)
    requires Reaches(FRESH, s, n) && n.state == Line(RequestUri)
    ensures Reaches(FRESH, HttpSlash(s),
                    n.(state := Line(RequestHttpVersion_majorStart), req := n.req.(versionMajor := 0, versionMinor := 0)))
  {
    hide Consume;
    ThenByte(FRESH, s, n, ' ');
    ThenByte(FRESH, s + " ", n.(state := Line(RequestHttpVersion_h)), 'H');
    ThenByte(FRESH, s + " " + "H", n.(state := Line(RequestHttpVersion_ht)), 'T');
    ThenByte(FRESH, s + " " + "H" + "T", n.(state := Line(RequestHttpVersion_htt)), 'T');
    ThenByte(FRESH, s + " " + "H" + "T" + "T", n.(state := Line(RequestHttpVersion_http)), 'P');
    ThenByte(FRESH, s + " " + "H" + "T" + "T" + "P", n.(state := Line(RequestHttpVersion_slash)), '/');
  }

  /** The machine after the start line of `r`. */
  function AfterLine(r: Request): Machine {
    FRESH.(state := Block(HeaderLineStart),
           req := Request(r.verb, r.uri, r.versionMajor, r.versionMinor, [], "", false))
  }

  lemma StartLineRun(r: Request)
    requires GoodToken(r.verb) && GoodUri(r.uri)
    ensures Reaches(FRESH, StartLine(Target(r.verb, r.uri), r.versionMajor, r.versionMinor), AfterLine(r))
  {
    hide Consume, HttpSlash;
    VerbRun(r.verb);
    var n := FRESH.(state := Line(RequestMethod), req := EMPTY_REQUEST.(verb := r.verb));
    ThenByte(FRESH, r.verb, n, ' ');
    UriRun(r.verb + " ", n.(state := Line(RequestUriStart)), r.uri);
    n := n.(state := Line(RequestUri), req := n.req.(uri := r.uri));
    var s := Target(r.verb, r.uri);
    SlashRun(s, n);
    s, n := HttpSlash(s), n.(state := Line(RequestHttpVersion_majorStart));
    MajorRun(s, n, r.versionMajor);
    s, n := s + Decimal(r.versionMajor), n.(state := Line(RequestHttpVersion_major), req := n.req.(versionMajor := r.versionMajor));
    ThenByte(FRESH, s, n, '.');
    s, n := s + ".", n.(state := Line(RequestHttpVersion_minorStart));
    MinorRun(s, n, r.versionMinor);
    s, n := s + Decimal(r.versionMinor), n.(state := Line(RequestHttpVersion_minor), req := n.req.(versionMinor := r.versionMinor));
    ThenByte(FRESH, s, n, '\r');
    ThenByte(FRESH, s + "\r", n.(state := Line(ResponseHttpVersion_newLine)), '\n');
  }

  /** `m` with the header list `hs`, and the framing that list announces. */
  function WithHeaders(m: Machine, hs: seq<HeaderItem>): Machine {
    m.(contentSize := BodyLength(m.req.verb, hs), chunked := Chunked(m.req.verb, hs), req := m.req.(headers := hs))
  }

  lemma {:induction false} NameRun(m: Machine, s: string, n: Machine, name: string)
    requires Reaches(m, s, n) && n.state == Block(HeaderLineStart) && GoodToken(name)
    ensures Reaches(m, s + name, n.(state := Block(HeaderName), req := n.req.(headers := n.req.headers + [HeaderItem(name, "")])))
  {
    var k := |name| - 1;
    assert name == name[..k] + [name[k]];
    if k == 0 {
      ThenByte(m, s, n, name[0]);
    } else {
      NameRun(m, s, n, name[..k]);
      Snoc(s, name[..k], name[k]);
      var hs := n.req.headers + [HeaderItem(name[..k], "")];
      assert AppendToName(hs, name[k]) == n.req.headers + [HeaderItem(name, "")];
      ThenByte(m, s + name[..k], n.(state := Block(HeaderName), req := n.req.(headers := hs)), name[k]);
    }
  }

  lemma {:induction false} ValueRun(m: Machine, s: string, n: Machine, front: seq<HeaderItem>, h: HeaderItem)
    requires Reaches(m, s, n.(req := n.req.(headers := front + [HeaderItem(h.name, "")])))
    requires n.state == Block(HeaderValue) && All(IsFieldByte, h.value)
    ensures Reaches(m, s + h.value, n.(req := n.req.(headers := front + [h])))
    decreases |h.value|
  {
    if h.value == "" {
      AppendEmpty(s);
    } else {
      var k := |h.value| - 1;
      var g, c := HeaderItem(h.name, h.value[..k]), h.value[k];
      assert h.value == h.value[..k] + [c];
      ValueRun(m, s, n, front, g);
      Snoc(s, h.value[..k], c);
      assert AppendToValue(front + [g], c) == front + [h];
      ThenByte(m, s + g.value, n.(req := n.req.(headers := front + [g])), c);
    }
  }

  lemma Announces(front: seq<HeaderItem>, h: HeaderItem)
    ensures Announced(front + [h]) == if IsContentLength(h) then ToSize(Atoi(h.value)) else Announced(front)
    ensures AnyChunked(front + [h]) == (AnyChunked(front) || IsChunked(h))
  {
    hide IsContentLength, Atoi, IsChunked;
    assert Last(front + [h]) == h && Front(front + [h]) == front;
    assert h in front + [h];
  }

  lemma HeaderRun(m: Machine, s: string, n: Machine, front: seq<HeaderItem>, h: HeaderItem)
    requires Reaches(m, s, WithHeaders(n, front)) && n.state == Block(HeaderLineStart)
    requires GoodHeader(h) && (HasBody(n.req.verb) ==> FitsSize(h))
    ensures Reaches(m, s + HeaderLine(h), WithHeaders(n, front + [h]))
  {
    hide Consume, IsContentLength, Atoi, KeepAlive, IsToken, Announced, AnyChunked, HasBody, All;
    var g := HeaderItem(h.name, "");
    var a := WithHeaders(n, front);
    NameRun(m, s, a, h.name);
    var b := a.(state := Block(HeaderName), req := n.req.(headers := front + [g]));
    ThenByte(m, s + h.name, b, ':');
    ThenByte(m, s + h.name + ":", b.(state := Block(SpaceBeforeHeaderValue)), ' ');
    var t := s + h.name + ":" + " ";
    ValueRun(m, t, b.(state := Block(HeaderValue)), front, h);
    var c := b.(state := Block(HeaderValue), req := n.req.(headers := front + [h]));
    assert Last(front + [h]) == h;
    Announces(front, h);
    ThenByte(m, t + h.value, c, '\r');
    var d := WithHeaders(n.(state := Block(ExpectingNewline_2)), front + [h]);
    assert Step(c, '\r').m == d;
    ThenByte(m, t + h.value + "\r", d, '\n');
    HeaderLineSplits(s, h);
  }

  lemma HeaderLineSplits(s: string, h: HeaderItem)
    ensures s + HeaderLine(h) == s + h.name + ":" + " " + h.value + "\r" + "\n"
  {
    Snoc(s, HeaderText(h) + "\r", '\n');
    Snoc(s, HeaderText(h), '\r');
    assert s + HeaderText(h) == s + h.name + ":" + " " + h.value;
  }

  lemma {:induction false} HeadersRun(m: Machine, s: string, n: Machine, hs: seq<HeaderItem>)
    requires Reaches(m, s, WithHeaders(n, [])) && n.state == Block(HeaderLineStart)
    requires GoodHeaders(hs) && (HasBody(n.req.verb) ==> forall h | h in hs :: FitsSize(h))
    ensures Reaches(m, s + HeaderLines(hs), WithHeaders(n, hs))
    decreases |hs|
  {
    hide Consume, WithHeaders, HeaderLine;
    if hs == [] {
      AppendEmpty(s);
    } else {
      var front, h := Front(hs), Last(hs);
      assert hs == front + [h];
      HeadersRun(m, s, n, front);
      HeaderRun(m, s + HeaderLines(front), n, front, h);
      assert s + (HeaderLines(front) + HeaderLine(h)) == s + HeaderLines(front) + HeaderLine(h);
    }
  }

  lemma HeadRun(r: Request)
    requires GoodHead(r)
    ensures Reaches(FRESH, Head(r), WithHeaders(AfterLine(r), r.headers))
  {
    hide Consume, StartLine, HeaderLines, KeepAlive;
    StartLineRun(r);
    assert WithHeaders(AfterLine(r), []) == AfterLine(r);
    HeadersRun(FRESH, StartLine(Target(r.verb, r.uri), r.versionMajor, r.versionMinor), AfterLine(r), r.headers);
  }

  lemma {:induction false} PostRun(m: Machine, body: string)
    requires m.state == Body(Post) && |body| <= m.contentSize && body != ""
    ensures Consumed(m, body) == |body|
    ensures var o := Consume(m, body);
            && o.result == (if |body| == m.contentSize then ParsingCompleted else ParsingIncomplete)
            && o.m == m.(contentSize := m.contentSize - |body|, req := m.req.(content := m.req.content + body))
    decreases |body|
  {
    var n := Step(m, body[0]).m;
    if |body| > 1 {
      assert m.req.content + [body[0]] + body[1..] == m.req.content + body;
      PostRun(n, body[1..]);
    } else {
      assert body == [body[0]];
    }
  }

  lemma PrintRun(r: Request)
    requires WellFormed(r)
    ensures var o := Consume(FRESH, Print(r));
            o.result.ParsingCompleted? && o.m.req == r && Consumed(FRESH, Print(r)) == |Print(r)|
  {
    hide Head, IsContentLength, IsChunked, Announced, AnyChunked, KeepAlive;
    HeadRun(r);
    var n := WithHeaders(AfterLine(r), r.headers);
    ThenByte(FRESH, Head(r), n, '\r');
    var e := n.(state := Block(ExpectingNewline_3));
    ConsumeAppend(FRESH, Head(r) + "\r", "\n" + r.content);
    assert Head(r) + "\r" + ("\n" + r.content) == Print(r);
    assert ("\n" + r.content)[1..] == r.content;
    if r.content != "" {
      PostRun(Step(e, '\n').m, r.content);
      assert "" + r.content == r.content;
    }
  }

  /** Printing, then parsing, gives back the request, byte for byte and not a byte early. */
  lemma PrintThenParse(r: Request)
    requires WellFormed(r)
    ensures var o := Consume(FRESH, Print(r));
            o.result.ParsingCompleted? && o.m.req == r && Consumed(FRESH, Print(r)) == |Print(r)|
    ensures forall k | 0 <= k < |Print(r)| :: Consume(FRESH, Print(r)[..k]).result.ParsingIncomplete?
  {
    hide Head, WellFormed, KeepAlive, Step;
    PrintRun(r);
    forall k | 0 <= k < |Print(r)| ensures Consume(FRESH, Print(r)[..k]).result.ParsingIncomplete? {
      ConsumeAppend(FRESH, Print(r)[..k], Print(r)[k..]);
      assert Print(r)[..k] + Print(r)[k..] == Print(r);
    }
  }
}
