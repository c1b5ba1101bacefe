/** The invariant of every state a fresh request parser reaches while its results are Incomplete. */
module HttpRequestInvariant {
  import opened Ascii
  import opened HttpCommon
  import opened HttpRequestParser
  import opened HttpRequestRuns
  import opened HttpRequestRoundTrip

  ghost predicate LineInv(s: LineState, r: Request) {
    && r.headers == [] && r.content == "" && !r.keepAlive
    && (if s.RequestMethodStart? then r.verb == "" else GoodToken(r.verb))
    && (if s.RequestMethodStart? || s.RequestMethod? || s.RequestUriStart? then r.uri == "" else GoodUri(r.uri))
  }

  /** The header lines the parser has evaluated: all but the one whose name is being read. */
  function Evaluated(s: BlockState, headers: seq<HeaderItem>): seq<HeaderItem> {
    if headers != [] && (s.HeaderName? || s.SpaceBeforeHeaderValue? || s.HeaderValue?) then Front(headers) else headers
  }

  ghost predicate Framed(s: BlockState, m: Machine) {
    var done := Evaluated(s, m.req.headers);
    if !HasBody(m.req.verb) then m.contentSize == 0 && !m.chunked
    else
      && (forall h | h in done :: FitsSize(h))
      && (AnyChunked(done) ==> m.chunked)
      && ((s.HeaderValue? && m.req.headers != [] && IsContentLength(Last(m.req.headers))) || m.contentSize == Announced(done))
  }

  ghost predicate BlockInv(s: BlockState, m: Machine) {
    && GoodToken(m.req.verb) && GoodUri(m.req.uri) && GoodHeaders(m.req.headers)
    && m.req.content == "" && !m.req.keepAlive && Framed(s, m)
    && (s.ExpectingNewline_2? ==> m.req.headers != [])
  }

  /** In Post what is still due and what has arrived add up to the announced length. */
  ghost predicate BodyInv(s: BodyState, m: Machine) {
    && GoodHead(m.req)
    && (s.Post? <==> !m.chunked)
    && (s.Post? ==> m.contentSize > 0 && WellFramed(m))
    && (s.ChunkData? ==> m.chunkSize > 0)
    && (s.ChunkSize? || s.ChunkExtensionName? || s.ChunkExtensionValue? || s.ChunkSizeNewLine? || m.chunkSizeStr == "")
  }

  ghost predicate WellFramed(m: Machine) {
    && !Chunked(m.req.verb, m.req.headers)
    && m.contentSize + |m.req.content| == BodyLength(m.req.verb, m.req.headers)
  }

  ghost predicate Inv(m: Machine) {
    && m.Ok()
    && match m.state
       case Line(s) => LineInv(s, m.req) && m.contentSize == 0 && !m.chunked && m.chunkSizeStr == ""
       case Block(s) => BlockInv(s, m) && m.chunkSizeStr == ""
       case Body(s) => BodyInv(s, m)
  }

  lemma GoodUriGrows(uri: string, c: char)
    requires GoodUri(uri) && IsUriByte(c)
    ensures GoodUri(uri + [c])
  {
    assert (uri + [c])[1..] == uri[1..] + [c];
  }

  lemma LineKeepsInv(m: Machine, c: char)
    requires Inv(m) && m.state.Line? && LineStep(m, c).result.ParsingIncomplete?
    ensures Inv(LineStep(m, c).m)
  {
    hide FitsSize, IsSpecial, DigitValue, IsContentLength;
    if m.state == Line(RequestUri) && c != ' ' { GoodUriGrows(m.req.uri, c); }
    if m.state == Line(RequestUriStart) { assert (m.req.uri + [c])[1..] == ""; }
    if m.state == Line(RequestMethodStart) { assert m.req.verb + [c] == [c]; }
  }

  /** One byte leaves the header list, opens a header, or makes the last one longer. */
  lemma HeadersGrow(m: Machine, c: char)
    requires m.Ok() && m.state.Block?
    ensures var hs, hs' := m.req.headers, BlockStep(m, c).m.req.headers;
            || hs' == hs
            || (IsToken(c) && hs' == hs + [HeaderItem([c], "")])
            || (hs != [] && IsToken(c) && hs' == AppendToName(hs, c))
            || (hs != [] && !IsControl(c) && hs' == AppendToValue(hs, c))
  {
    hide IsToken, IsControl, IsContentLength, IsChunked, HasBody, Atoi, KeepAlive, AppendToName, AppendToValue;
  }

  lemma GoodWithLast(hs: seq<HeaderItem>, h: HeaderItem)
    requires GoodHeaders(hs) && GoodHeader(h)
    ensures GoodHeaders(hs + [h])
  {
    hide GoodHeader;
  }

  lemma BlockKeepsFields(m: Machine, c: char)
    requires m.Ok() && m.state.Block? && GoodHeaders(m.req.headers)
    ensures GoodHeaders(BlockStep(m, c).m.req.headers)
  {
    hide BlockStep, IsToken, IsControl;
    HeadersGrow(m, c);
    var hs, hs' := m.req.headers, BlockStep(m, c).m.req.headers;
    if |hs'| > |hs| {
      GoodWithLast(hs, HeaderItem([c], ""));
    } else if hs' != hs {
      assert Last(hs) in hs && GoodHeader(Last(hs'));
      GoodWithLast(Front(hs), Last(hs'));
    }
  }

  /** What the framing knows about a header list is what it knows about its front and its last item. */
  lemma FramingSplits(front: seq<HeaderItem>, h: HeaderItem)
    ensures Evaluated(HeaderName, front + [h]) == Evaluated(HeaderValue, front + [h]) == front
    ensures (forall g | g in front + [h] :: FitsSize(g)) <==> (forall g | g in front :: FitsSize(g)) && FitsSize(h)
    ensures Announced(front + [h]) == if IsContentLength(h) then ToSize(Atoi(h.value)) else Announced(front)
    ensures AnyChunked(front + [h]) == (AnyChunked(front) || IsChunked(h))
    ensures IsChunked(h) ==> !IsContentLength(h)
  {
    hide FitsSize;
    Announces(front, h);
    assert h in front + [h];
    assert Front(front + [h]) == front;
  }

  lemma ValueEndKeepsFraming(m: Machine)
    requires Inv(m) && m.state == Block(HeaderValue) && EndOfValue(m).result.ParsingIncomplete?
    ensures EndOfValue(m).m.state == Block(ExpectingNewline_2) && Framed(ExpectingNewline_2, EndOfValue(m).m)
  {
    hide GoodToken, GoodUri, GoodHeaders, IsContentLength, IsChunked, Atoi, Announced, AnyChunked, HasBody;
    var hs := m.req.headers;
    assert hs == Front(hs) + [Last(hs)];
    FramingSplits(Front(hs), Last(hs));
  }

  lemma NameKeepsFraming(m: Machine, c: char)
    requires Inv(m) && m.state in {Block(HeaderName), Block(SpaceBeforeHeaderValue)}
    requires BlockStep(m, c).result.ParsingIncomplete?
    ensures Framed(BlockStep(m, c).m.state.block, BlockStep(m, c).m)
  {
    hide GoodToken, GoodUri, GoodHeaders, IsToken, FitsSize, IsContentLength, IsChunked, Atoi, HasBody, EndOfValue,
         Announced, AnyChunked, KeepAlive;
    var hs, hs' := m.req.headers, BlockStep(m, c).m.req.headers;
    assert hs == Front(hs) + [Last(hs)] && hs' == Front(hs) + [Last(hs')];
    FramingSplits(Front(hs), Last(hs'));
  }

  lemma ValueKeepsFraming(m: Machine, c: char)
    requires Inv(m) && m.state in {Block(HeaderLws), Block(HeaderValue)} && c != '\r'
    requires BlockStep(m, c).result.ParsingIncomplete?
    ensures Framed(BlockStep(m, c).m.state.block, BlockStep(m, c).m)
  {
    hide GoodToken, GoodUri, GoodHeaders, IsControl, FitsSize, IsContentLength, IsChunked, Atoi, HasBody, EndOfValue,
         Announced, AnyChunked, KeepAlive;
    var hs, hs' := m.req.headers, BlockStep(m, c).m.req.headers;
    var front, h, h' := Front(hs), Last(hs), Last(hs');
    assert hs == front + [h] && hs' == front + [h'];
    FramingSplits(front, h);
    FramingSplits(front, h');
    SameNameSameKind(h, h');
  }

  lemma BlockKeepsFraming(m: Machine, c: char)
    requires Inv(m) && m.state.Block? && BlockStep(m, c).result.ParsingIncomplete?
    ensures BlockStep(m, c).m.state.Block? ==> Framed(BlockStep(m, c).m.state.block, BlockStep(m, c).m)
  {
    hide GoodToken, GoodUri, GoodHeaders, IsToken, IsControl, FitsSize, Announced, AnyChunked, HasBody, KeepAlive, EndOfValue;
    if m.state == Block(HeaderValue) && c == '\r' {
      ValueEndKeepsFraming(m);
    } else if m.state in {Block(HeaderName), Block(SpaceBeforeHeaderValue)} {
      NameKeepsFraming(m, c);
    } else if m.state in {Block(HeaderLws), Block(HeaderValue)} && c != '\r' {
      ValueKeepsFraming(m, c);
    } else if |BlockStep(m, c).m.req.headers| > |m.req.headers| {
      FramingSplits(m.req.headers, HeaderItem([c], ""));
    }
  }

  lemma SameNameSameKind(h: HeaderItem, g: HeaderItem)
    requires h.name == g.name
    ensures IsContentLength(h) == IsContentLength(g)
  {
  }

  lemma BlockKeepsInv(m: Machine, c: char)
    requires Inv(m) && m.state.Block? && BlockStep(m, c).result in {ParsingIncomplete, ParsingCompleted}
    ensures var o := BlockStep(m, c);
            if o.result.ParsingIncomplete? then Inv(o.m) else WellFormed(o.m.req)
  {
    hide GoodToken, GoodUri, GoodHeaders, IsToken, IsContentLength, IsChunked, Atoi, KeepAlive, Announced, AnyChunked,
         HasBody, FitsSize, ToSize;
    BlockKeepsFields(m, c);
    if BlockStep(m, c).result.ParsingIncomplete? { BlockKeepsFraming(m, c); }
  }

  lemma BodyKeepsInv(m: Machine, c: char)
    requires Inv(m) && m.state.Body? && BodyStep(m, c).result in {ParsingIncomplete, ParsingCompleted}
    ensures var o := BodyStep(m, c);
            if o.result.ParsingIncomplete? then Inv(o.m)
            else GoodHead(o.m.req) && (m.state == Body(Post) ==> WellFormed(o.m.req))
  {
    hide GoodToken, GoodUri, GoodHeaders, FitsSize, BodyLength, Chunked, KeepAlive, ChunkLength;
  }

  lemma {:induction false} RunKeepsInv(m: Machine, input: string)
    requires Inv(m)
    ensures var o := Consume(m, input);
            && (o.result.ParsingIncomplete? ==> Inv(o.m))
            && (o.result.ParsingCompleted? && !o.m.state.Line? ==>
                  GoodHead(o.m.req) && (o.m.state in {Block(ExpectingNewline_3), Body(Post)} ==> WellFormed(o.m.req)))
    decreases |input|
  {
    hide LineInv, BlockInv, BodyInv, LineStep, BlockStep, BodyStep, GoodHead, WellFormed;
    if input != "" {
      StepKeepsInv(m, input[0]);
      if Step(m, input[0]).result.ParsingIncomplete? { RunKeepsInv(Step(m, input[0]).m, input[1..]); }
    }
  }

  lemma StepKeepsInv(m: Machine, c: char)
    requires Inv(m)
    ensures var o := Step(m, c);
            && (o.result.ParsingIncomplete? ==> Inv(o.m))
            && (o.result.ParsingCompleted? && !o.m.state.Line? ==>
                  GoodHead(o.m.req) && (o.m.state in {Block(ExpectingNewline_3), Body(Post)} ==> WellFormed(o.m.req)))
  {
    hide BlockInv, BodyInv, LineInv, GoodHead;
    var o := Step(m, c);
    if o.result in {ParsingIncomplete, ParsingCompleted} {
      match m.state
      case Line(_) => if o.result.ParsingIncomplete? { LineKeepsInv(m, c); }
      case Block(_) => BlockKeepsInv(m, c);
      case Body(_) => BodyKeepsInv(m, c);
    }
  }

  /** Every state reached with Incomplete satisfies the invariant, and every request completed outside
      the HTTP/0.9 short form has a good head and, unless chunked, is well formed. */
  lemma ReachableInvariant(input: string)
    ensures var o := Consume(FRESH, input);
            && (o.result.ParsingIncomplete? ==> Inv(o.m))
            && (o.result.ParsingCompleted? && !o.m.state.Line? ==>
                  GoodHead(o.m.req) && (o.m.state in {Block(ExpectingNewline_3), Body(Post)} ==> WellFormed(o.m.req)))
  {
    RunKeepsInv(FRESH, input);
  }

  /** Parsing normalises: what an unchunked parse delivers prints to bytes that deliver it again, even
      if the input had folded headers, leading zeros or a stray byte before the body. */
  lemma ParsePrintParse(input: string)
    requires var o := Consume(FRESH, input);
             o.result.ParsingCompleted? && o.m.state in {Block(ExpectingNewline_3), Body(Post)}
    ensures var r := Consume(FRESH, input).m.req;
            var o := Consume(FRESH, Print(r));
            o.result.ParsingCompleted? && o.m.req == r && Consumed(FRESH, Print(r)) == |Print(r)|
  {
    ReachableInvariant(input);
    PrintThenParse(Consume(FRESH, input).m.req);
  }

  // ---------- Round trips exactly ----------

  lemma {:induction false} CompletesIn(m: Machine, input: string)
    requires m.Ok() && Consume(m, input).result.ParsingCompleted?
    ensures Consume(m, input).m.state in {Line(RequestUri), Block(ExpectingNewline_3), Body(Post), Body(ChunkSizeNewLine_3)}
    decreases |input|
  {
    hide Step;
    if Step(m, input[0]).result.ParsingIncomplete? {
      CompletesIn(Step(m, input[0]).m, input[1..]);
    } else {
      StepCompletesIn(m, input[0]);
    }
  }

  lemma StepCompletesIn(m: Machine, c: char)
    requires m.Ok() && Step(m, c).result.ParsingCompleted?
    ensures Step(m, c).m.state == m.state
    ensures m.state in {Line(RequestUri), Block(ExpectingNewline_3), Body(Post), Body(ChunkSizeNewLine_3)}
  {
    hide IsToken, IsControl, IsContentLength, IsChunked, HasBody, Atoi, KeepAlive, IsAlnum, IsAlpha, ChunkLength;
  }

  /** A chunked body that is complete has framing the message does not record. */
  lemma {:induction false} ChunkedLoses(m: Machine, input: string)
    requires m.Ok() && Consume(m, input).result.ParsingCompleted? && Consume(m, input).m.state == Body(ChunkSizeNewLine_3)
    ensures Loss(m, input) > 0
    decreases |input|
  {
    hide Step;
    if Step(m, input[0]).result.ParsingIncomplete? {
      ChunkedLoses(Step(m, input[0]).m, input[1..]);
    } else {
      StepCompletesIn(m, input[0]);
    }
  }

  predicate BeforeVersion(s: State) {
    s in {Line(RequestMethodStart), Line(RequestMethod), Line(RequestUriStart), Line(RequestUri)}
  }

  lemma BlockLeavesLine(m: Machine, c: char)
    requires m.Ok() && m.state.Block?
    ensures !BlockStep(m, c).m.state.Line?
  {
    hide IsToken, IsControl, IsContentLength, IsChunked, HasBody, Atoi, KeepAlive, AppendToName, AppendToValue;
  }

  lemma BodyLeavesLine(m: Machine, c: char)
    requires m.state.Body?
    ensures !BodyStep(m, c).m.state.Line?
  {
    hide IsAlnum, IsAlpha, ChunkLength;
  }

  lemma StepBeforeVersion(m: Machine, c: char)
    requires m.Ok() && Step(m, c).result.ParsingIncomplete? && BeforeVersion(Step(m, c).m.state)
    ensures BeforeVersion(m.state)
  {
    hide BlockStep, BodyStep, IsToken, IsControl;
    if m.state.Block? { BlockLeavesLine(m, c); }
    if m.state.Body? { BodyLeavesLine(m, c); }
  }

  /** The short form of HTTP/0.9 loses nothing. */
  lemma {:induction false} ShortFormLosesNothing(m: Machine, input: string)
    requires m.Ok() && Consume(m, input).result.ParsingCompleted? && Consume(m, input).m.state == Line(RequestUri)
    ensures BeforeVersion(m.state) && Loss(m, input) == 0
    decreases |input|
  {
    hide Step;
    if Step(m, input[0]).result.ParsingIncomplete? {
      ShortFormLosesNothing(Step(m, input[0]).m, input[1..]);
      StepBeforeVersion(m, input[0]);
    } else {
      StepCompletesIn(m, input[0]);
    }
  }

  lemma PrintLengths(r: Request)
    ensures |Print(r)| == |Head(r)| + 2 + |r.content| && |Print(r)| > |Target(r.verb, r.uri)| + 1
  {
    hide HeaderLines;
  }

  /** A request is read back from its print, to the last byte, exactly when it is well formed. */
  lemma RoundTripExactly(r: Request)
    ensures var o := Consume(FRESH, Print(r));
            o.result.ParsingCompleted? && o.m.req == r && Consumed(FRESH, Print(r)) == |Print(r)| <==> WellFormed(r)
  {
    hide WellFormed, GoodHead, Consume, Print, Head, Loss;
    if WellFormed(r) { PrintThenParse(r); }
    var t, o := Print(r), Consume(FRESH, Print(r));
    if o.result.ParsingCompleted? && o.m.req == r && Consumed(FRESH, t) == |t| {
      assert t[..|t|] == t;
      ReachableInvariant(t);
      CompletesIn(FRESH, t);
      ParseThenPrint(t);
      PrintLengths(r);
      if o.m.state == Body(ChunkSizeNewLine_3) { ChunkedLoses(FRESH, t); }
      if o.m.state == Line(RequestUri) { ShortFormLosesNothing(FRESH, t); }
    }
  }
}
