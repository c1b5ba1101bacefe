/** When parsing a request raises `std::length_error`: `reserve` is asked for more than a string can hold. */
module HttpThrown {
  import opened Ascii
  import opened HttpCommon
  import opened HttpRequestParser
  import opened HttpRequestRuns
  import opened HttpRequestRoundTrip
  import opened HttpChunked

  // ---------- Any input ----------

  /** The byte `c` asks for too much: it ends a Content-Length value, or the line of a chunk size. */
  predicate AsksTooMuch(m: Machine, c: char) {
    || (&& m.state == Block(HeaderValue) && c == '\r' && m.req.headers != [] && HasBody(m.req.verb)
        && !FitsSize(Last(m.req.headers)))
    || (m.state == Body(ChunkSizeNewLine) && c == '\n' && |m.req.content| + ChunkLength(m.chunkSizeStr) > MAX_SIZE)
  }

  lemma StepThrows(m: Machine, c: char)
    requires m.Ok()
    ensures Step(m, c).result.Thrown? <==> AsksTooMuch(m, c)
  {
    hide IsToken, IsControl, IsContentLength, IsChunked, HasBody, Atoi, KeepAlive, IsAlnum, IsAlpha, ChunkLength;
  }

  ghost predicate ThrowsAt(m: Machine, input: string, k: nat)
    requires m.Ok()
  {
    && k < |input| && Consume(m, input[..k]).result.ParsingIncomplete?
    && AsksTooMuch(Consume(m, input[..k]).m, input[k])
  }

  /** A run throws exactly if some byte of it asks for too much, all bytes in front of it being read. */
  lemma {:induction false} RunThrows(m: Machine, input: string)
    requires m.Ok()
    ensures Consume(m, input).result.Thrown? <==> exists k: nat :: ThrowsAt(m, input, k)
    decreases |input|
  {
    hide Step, AsksTooMuch;
    if input == "" {
      assert forall k: nat :: !ThrowsAt(m, input, k);
    } else {
      var o := Step(m, input[0]);
      StepThrows(m, input[0]);
      assert input[..0] == "";
      if o.result.ParsingIncomplete? { RunThrows(o.m, input[1..]); }
      forall k: nat ensures ThrowsAt(m, input, k) <==>
                            if k == 0 then o.result.Thrown? else o.result.ParsingIncomplete? && ThrowsAt(o.m, input[1..], k - 1) {
        if 0 < k < |input| {
          assert input[..k][0] == input[0] && input[..k][1..] == input[1..][..k - 1];
        }
      }
      if k: nat :| ThrowsAt(m, input, k) && k > 0 { assert ThrowsAt(o.m, input[1..], k - 1); }
      if j: nat :| ThrowsAt(o.m, input[1..], j) { assert o.result.ParsingIncomplete? ==> ThrowsAt(m, input, j + 1); }
      if o.result.Thrown? { assert ThrowsAt(m, input, 0); }
    }
  }

  /** On the range of an `int`, the length error is raised exactly for a negative Content-Length. */
  lemma NegativeLengthThrows(m: Machine)
    requires m.state == Block(HeaderValue) && m.req.headers != [] && HasBody(m.req.verb) && IsContentLength(Last(m.req.headers))
    requires -0x8000_0000 <= Atoi(Last(m.req.headers).value) < 0x8000_0000
    ensures Step(m, '\r').result == Thrown <==> Atoi(Last(m.req.headers).value) < 0
  {
    hide IsContentLength, Atoi;
    var n := Atoi(Last(m.req.headers).value);
    if n < 0 { assert ToSize(n) == n + SIZE_MODULUS; } else { assert ToSize(n) == n; }
  }

  // ---------- Printed heads ----------

  lemma {:induction false} HeaderLinesAppend(a: seq<HeaderItem>, b: seq<HeaderItem>)
    ensures HeaderLines(a + b) == HeaderLines(a) + HeaderLines(b)
    decreases |b|
  {
    hide HeaderLine;
    if b == [] {
      assert a + b == a;
      AppendEmpty(HeaderLines(a));
    } else {
      assert Front(a + b) == a + Front(b) && Last(a + b) == Last(b);
      HeaderLinesAppend(a, Front(b));
      assert HeaderLines(a) + HeaderLines(Front(b)) + HeaderLine(Last(b)) == HeaderLines(a) + (HeaderLines(Front(b)) + HeaderLine(Last(b)));
    }
  }

  /** A header line whose length does not fit is not read to its end. */
  lemma HeaderThrows(m: Machine, s: string, n: Machine, front: seq<HeaderItem>, h: HeaderItem, rest: string)
    requires Reaches(m, s, WithHeaders(n, front)) && n.state == Block(HeaderLineStart)
    requires GoodHeader(h) && HasBody(n.req.verb) && !FitsSize(h)
    ensures Consume(m, s + HeaderLine(h) + rest).result == Thrown
  {
    hide Consume, IsContentLength, Atoi, KeepAlive, IsToken, Announced, AnyChunked, HasBody, All, Step;
    var g := HeaderItem(h.name, "");
    var a := WithHeaders(n, front);
    NameRun(m, s, a, h.name);
    var b := a.(state := Block(HeaderName), req := n.req.(headers := front + [g]));
    ColonStep(b);
    ThenByte(m, s + h.name, b, ':');
    ThenByte(m, s + h.name + ":", b.(state := Block(SpaceBeforeHeaderValue)), ' ');
    var t := s + h.name + ":" + " ";
    ValueRun(m, t, b.(state := Block(HeaderValue)), front, h);
    var c := b.(state := Block(HeaderValue), req := n.req.(headers := front + [h]));
    assert Last(front + [h]) == h;
    StepThrows(c, '\r');
    ThrownStays(m, t + h.value, c, '\r', "\n" + rest);
    HeaderLineSplits(s, h);
    assert t + h.value + "\r" + "\n" + rest == t + h.value + (['\r'] + ("\n" + rest));
  }

  lemma ColonStep(b: Machine)
    requires b.Ok() && b.state == Block(HeaderName)
    ensures Step(b, ':') == More(b.(state := Block(SpaceBeforeHeaderValue)))
    ensures Step(b.(state := Block(SpaceBeforeHeaderValue)), ' ') == More(b.(state := Block(HeaderValue)))
  {
  }

  lemma ThrownStays(m: Machine, s: string, n: Machine, c: char, rest: string)
    requires Reaches(m, s, n) && Step(n, c).result == Thrown
    ensures Consume(m, s + ([c] + rest)).result == Thrown
  {
    hide Step;
    ConsumeAppend(m, s, [c] + rest);
    assert ([c] + rest)[0] == c;
  }

  lemma {:induction false} FirstUnfit(hs: seq<HeaderItem>) returns (k: nat)
    requires exists h | h in hs :: !FitsSize(h)
    ensures k < |hs| && !FitsSize(hs[k]) && forall h | h in hs[..k] :: FitsSize(h)
  {
    hide FitsSize;
    if !FitsSize(hs[0]) {
      k := 0;
    } else {
      assert hs == [hs[0]] + hs[1..];
      k := FirstUnfit(hs[1..]);
      k := k + 1;
      assert hs[..k] == [hs[0]] + hs[1..][..k - 1];
    }
  }

  /** The print of a head with good fields throws exactly when its method has a body and a Content-Length
      does not fit. */
  lemma HeadThrowsExactly(r: Request)
    requires GoodToken(r.verb) && GoodUri(r.uri) && GoodHeaders(r.headers)
    ensures Consume(FRESH, Head(r)).result == Thrown <==> HasBody(r.verb) && exists h | h in r.headers :: !FitsSize(h)
  {
    hide Consume, StartLine, HeaderLines, HeaderLine, KeepAlive, FitsSize, GoodHeader, HasBody, Head, All;
    if HasBody(r.verb) && exists h | h in r.headers :: !FitsSize(h) {
      UnfitThrows(r);
    } else {
      var g := r.(keepAlive := KeepAlive(r.headers, r.versionMajor, r.versionMinor, false));
      HeadRun(g);
      SameHead(r, g);
    }
  }

  lemma SameHead(r: Request, g: Request)
    requires g == r.(keepAlive := g.keepAlive)
    ensures Head(g) == Head(r)
  {
  }

  lemma UnfitThrows(r: Request)
    requires GoodToken(r.verb) && GoodUri(r.uri) && GoodHeaders(r.headers)
    requires HasBody(r.verb) && exists h | h in r.headers :: !FitsSize(h)
    ensures Consume(FRESH, Head(r)).result == Thrown
  {
    hide Consume, StartLine, HeaderLines, HeaderLine, KeepAlive, FitsSize, GoodHeader, HasBody, All, WithHeaders;
    var hs := r.headers;
    var k := FirstUnfit(hs);
    var start := StartLine(Target(r.verb, r.uri), r.versionMajor, r.versionMinor);
    StartLineRun(r);
    NoHeadersYet(r);
    HeadersRun(FRESH, start, AfterLine(r), hs[..k]);
    var s, rest := start + HeaderLines(hs[..k]), HeaderLines(hs[k + 1..]);
    HeaderThrows(FRESH, s, AfterLine(r), hs[..k], hs[k], rest);
    assert hs == hs[..k] + ([hs[k]] + hs[k + 1..]);
    HeaderLinesAppend(hs[..k], [hs[k]] + hs[k + 1..]);
    HeaderLinesAppend([hs[k]], hs[k + 1..]);
    OneHeaderLine(hs[k]);
    Associate(start, HeaderLines(hs[..k]), HeaderLine(hs[k]), rest);
  }

  lemma Associate(a: string, b: string, c: string, d: string)
    ensures a + (b + (c + d)) == a + b + c + d
  {
  }

  lemma NoHeadersYet(r: Request)
    ensures WithHeaders(AfterLine(r), []) == AfterLine(r)
  {
  }

  lemma OneHeaderLine(h: HeaderItem)
    ensures HeaderLines([h]) == HeaderLine(h)
  {
    assert Front([h]) == [] && "" + HeaderLine(h) == HeaderLine(h);
  }

  // ---------- Chunk sizes ----------

  /** Behind a good head and good chunks, a size line throws exactly when chunk and content together are
      longer than a string can be. */
  lemma ChunkSizeThrowsExactly(r: Request, chunks: seq<Chunk>, s: SizeLine)
    requires GoodHead(r) && Chunked(r.verb, r.headers) && (forall c | c in chunks :: GoodChunk(c)) && GoodSize(s)
    requires |Payload(chunks)| <= MAX_SIZE
    ensures Consume(FRESH, Head(r) + "\r" + "\n" + (ChunksText(chunks) + SizeText(s))).result == Thrown
            <==> |Payload(chunks)| + ChunkLength(s.hex) > MAX_SIZE
  {
    hide Head, KeepAlive, AnyChunked, Payload, ChunksText, ChunkLength, GoodChunk, GoodSize, ExtensionText, Consume;
    HeadRun(r);
    var n := WithHeaders(AfterLine(r), r.headers);
    ThenByte(FRESH, Head(r), n, '\r');
    var e := n.(state := Block(ExpectingNewline_3));
    ThenByte(FRESH, Head(r) + "\r", e, '\n');
    var b := Step(e, '\n').m;
    ChunksRun(b, chunks);
    var d := b.(chunkSize := if chunks == [] then b.chunkSize else 0, req := b.req.(content := "" + Payload(chunks)));
    SizeUpToBreak(d, s);
    var line := s.hex + ExtensionText(s.ext) + "\r";
    Compose(b, ChunksText(chunks), d, line, d.(state := Body(ChunkSizeNewLine), chunkSizeStr := s.hex));
    Compose(FRESH, Head(r) + "\r" + "\n", b, ChunksText(chunks) + line, d.(state := Body(ChunkSizeNewLine), chunkSizeStr := s.hex));
    var all, m := Head(r) + "\r" + "\n" + (ChunksText(chunks) + line), d.(state := Body(ChunkSizeNewLine), chunkSizeStr := s.hex);
    LastByte(FRESH, all, m, '\n');
    StepThrows(m, '\n');
    assert all + "\n" == Head(r) + "\r" + "\n" + (ChunksText(chunks) + (line + "\n"));
  }

  lemma LastByte(m: Machine, s: string, n: Machine, c: char)
    requires Reaches(m, s, n)
    ensures Consume(m, s + [c]).result == Step(n, c).result
  {
    hide Step;
    ConsumeAppend(m, s, [c]);
    assert [c][1..] == "";
  }
}
