/** From the first header line on, the request parser (on POST and PUT) and the response parser are the
    same machine; on any other method they are not. */
module HttpSimulation {
  import opened Ascii
  import opened HttpCommon
  import Q = HttpRequestParser
  import P = HttpResponseParser
  import opened HttpRequestRuns
  import opened HttpRequestRoundTrip

  /** The response parser's header states stand in the same order as the request parser's. */
  function BlockImage(s: Q.BlockState): P.BlockState {
    match s
    case HeaderLineStart => P.HeaderLineStart
    case HeaderLws => P.HeaderLws
    case HeaderName => P.HeaderName
    case SpaceBeforeHeaderValue => P.SpaceBeforeHeaderValue
    case HeaderValue => P.HeaderValue
    case ExpectingNewline_2 => P.ExpectingNewline_2
    case ExpectingNewline_3 => P.ExpectingNewline_3
  }

  function BodyImage(s: Q.BodyState): P.BodyState {
    match s
    case Post => P.Post
    case ChunkSize => P.ChunkSize
    case ChunkExtensionName => P.ChunkExtensionName
    case ChunkExtensionValue => P.ChunkExtensionValue
    case ChunkSizeNewLine => P.ChunkSizeNewLine
    case ChunkSizeNewLine_2 => P.ChunkSizeNewLine_2
    case ChunkSizeNewLine_3 => P.ChunkSizeNewLine_3
    case ChunkTrailerName => P.ChunkTrailerName
    case ChunkTrailerValue => P.ChunkTrailerValue
    case ChunkDataNewLine_1 => P.ChunkDataNewLine_1
    case ChunkDataNewLine_2 => P.ChunkDataNewLine_2
    case ChunkData => P.ChunkData
  }

  /** Corresponding states past the start line, and every shared field equal. */
  predicate Same(q: Q.Machine, p: P.Machine) {
    && (match q.state
        case Line(_) => false
        case Block(s) => p.state == P.Block(BlockImage(s))
        case Body(s) => p.state == P.Body(BodyImage(s)))
    && q.contentSize == p.contentSize && q.chunkSizeStr == p.chunkSizeStr
    && q.chunkSize == p.chunkSize && q.chunked == p.chunked
    && q.req.versionMajor == p.resp.versionMajor && q.req.versionMinor == p.resp.versionMinor
    && q.req.headers == p.resp.headers && q.req.content == p.resp.content && q.req.keepAlive == p.resp.keepAlive
  }

  /** The fields only one side has are left alone. */
  predicate SameRest(q: Q.Machine, q': Q.Machine, p: P.Machine, p': P.Machine) {
    q'.req.verb == q.req.verb && q'.req.uri == q.req.uri && p'.resp.status == p.resp.status && p'.resp.statusCode == p.resp.statusCode
  }

  lemma BlockSame(q: Q.Machine, p: P.Machine, c: char)
    requires q.Ok() && p.Ok() && q.state.Block? && Same(q, p) && Q.HasBody(q.req.verb)
    ensures var o, r := Q.BlockStep(q, c), P.BlockStep(p, c);
            o.result == r.result && Same(o.m, r.m) && SameRest(q, o.m, p, r.m)
  {
    if q.state == Q.Block(Q.ExpectingNewline_3) {
      HeadEndSame(q, p, c);
      return;
    }
    if q.state == Q.Block(Q.HeaderValue) {
      ValueSame(q, p, c);
      return;
    }
    if q.state in {Q.Block(Q.HeaderLineStart), Q.Block(Q.HeaderLws)} {
      LineStartSame(q, p, c);
      return;
    }
    hide IsToken, IsControl, IsContentLength, IsChunked, Atoi, ToSize, KeepAlive, AppendToName, AppendToValue, BodyImage;
    match q.state.block
    case HeaderName =>
    case SpaceBeforeHeaderValue =>
    case ExpectingNewline_2 =>
  }

  lemma LineStartSame(q: Q.Machine, p: P.Machine, c: char)
    requires q.Ok() && p.Ok() && q.state in {Q.Block(Q.HeaderLineStart), Q.Block(Q.HeaderLws)} && Same(q, p)
    ensures var o, r := Q.BlockStep(q, c), P.BlockStep(p, c);
            o.result == r.result && Same(o.m, r.m) && SameRest(q, o.m, p, r.m)
  {
    hide IsToken, IsControl, Q.EndOfValue, P.EndOfValue, KeepAlive, AppendToName, AppendToValue, BodyImage;
  }

  lemma ValueSame(q: Q.Machine, p: P.Machine, c: char)
    requires q.Ok() && p.Ok() && q.state == Q.Block(Q.HeaderValue) && Same(q, p) && Q.HasBody(q.req.verb)
    ensures var o, r := Q.BlockStep(q, c), P.BlockStep(p, c);
            o.result == r.result && Same(o.m, r.m) && SameRest(q, o.m, p, r.m)
  {
    hide IsToken, IsControl, IsContentLength, IsChunked, Atoi, ToSize, KeepAlive, AppendToName, AppendToValue, BodyImage;
  }

  lemma HeadEndSame(q: Q.Machine, p: P.Machine, c: char)
    requires q.state == Q.Block(Q.ExpectingNewline_3) && Same(q, p)
    ensures var o, r := Q.BlockStep(q, c), P.BlockStep(p, c);
            o.result == r.result && Same(o.m, r.m) && SameRest(q, o.m, p, r.m)
  {
    hide IsToken, IsControl, Q.EndOfValue, P.EndOfValue, KeepAlive, AppendToName, AppendToValue;
  }

  lemma SizeLineSame(q: Q.Machine, p: P.Machine, c: char)
    requires q.state in {Q.Body(Q.ChunkSize), Q.Body(Q.ChunkExtensionName), Q.Body(Q.ChunkExtensionValue), Q.Body(Q.ChunkSizeNewLine)}
    requires Same(q, p)
    ensures var o, r := Q.BodyStep(q, c), P.BodyStep(p, c);
            o.result == r.result && Same(o.m, r.m) && SameRest(q, o.m, p, r.m)
  {
    hide IsAlnum, IsAlpha, ChunkLength, BlockImage, Decrement;
    match q.state.body
    case ChunkSize =>
    case ChunkExtensionName =>
    case ChunkExtensionValue =>
    case ChunkSizeNewLine =>
  }

  lemma BodySame(q: Q.Machine, p: P.Machine, c: char)
    requires q.state.Body? && Same(q, p)
    ensures var o, r := Q.BodyStep(q, c), P.BodyStep(p, c);
            o.result == r.result && Same(o.m, r.m) && SameRest(q, o.m, p, r.m)
  {
    if q.state in {Q.Body(Q.ChunkSize), Q.Body(Q.ChunkExtensionName), Q.Body(Q.ChunkExtensionValue), Q.Body(Q.ChunkSizeNewLine)} {
      SizeLineSame(q, p, c);
      return;
    }
    hide IsAlnum, IsAlpha, ChunkLength, BlockImage, Decrement;
    match q.state.body
    case Post =>
    case ChunkSizeNewLine_2 =>
    case ChunkSizeNewLine_3 =>
    case ChunkTrailerName =>
    case ChunkTrailerValue =>
    case ChunkDataNewLine_1 =>
    case ChunkDataNewLine_2 =>
    case ChunkData =>
  }

  lemma StepSame(q: Q.Machine, p: P.Machine, c: char)
    requires q.Ok() && p.Ok() && Same(q, p) && Q.HasBody(q.req.verb)
    ensures var o, r := Q.Step(q, c), P.Step(p, c);
            o.result == r.result && Same(o.m, r.m) && SameRest(q, o.m, p, r.m)
  {
    hide Q.BlockStep, Q.BodyStep, P.BlockStep, P.BodyStep;
    if q.state.Block? { BlockSame(q, p, c); } else { BodySame(q, p, c); }
  }

  /** On every input both machines give the same result and stay equal in all shared fields; the
      response keeps its status. */
  lemma {:induction false} Simulate(q: Q.Machine, p: P.Machine, input: string)
    requires q.Ok() && p.Ok() && Same(q, p) && Q.HasBody(q.req.verb)
    ensures Q.Consume(q, input).result == P.Consume(p, input).result
    ensures Same(Q.Consume(q, input).m, P.Consume(p, input).m)
    ensures Q.Consumed(q, input) == P.Consumed(p, input)
    ensures SameRest(q, Q.Consume(q, input).m, p, P.Consume(p, input).m)
    decreases |input|
  {
    hide Q.LineStep, Q.BlockStep, Q.BodyStep, P.LineStep, P.BlockStep, P.BodyStep, BlockImage, BodyImage;
    if input != "" {
      StepSame(q, p, input[0]);
      var o, r := Q.Step(q, input[0]), P.Step(p, input[0]);
      if o.result.ParsingIncomplete? { Simulate(o.m, r.m, input[1..]); }
    }
  }

  /** A header on which the two parsers part for every other method. */
  const ONE_BYTE := HeaderItem("Content-Length", "1")

  lemma NameIsToken()
    ensures GoodToken("Content-Length")
  {
    var s := "Content-Length";
    forall i | 0 <= i < |s| ensures IsToken(s[i]) {
      assert IsAlpha(s[i]) || s[i] == '-';
    }
  }

  lemma OneByteAnnounced()
    ensures IsContentLength(ONE_BYTE) && !IsChunked(ONE_BYTE) && GoodHeader(ONE_BYTE) && FitsSize(ONE_BYTE)
    ensures Announced([ONE_BYTE]) == 1 && !AnyChunked([ONE_BYTE])
  {
    NameIsToken();
    AtoiDecimal(1);
    assert Decimal(1) == "1";
    Announces([], ONE_BYTE);
    assert [] + [ONE_BYTE] == [ONE_BYTE];
  }

  lemma OneByteRequest(r: Q.Request)
    ensures Q.Consume(AfterLine(r), HeaderLine(ONE_BYTE) + "\r" + "\n").result
            == if Q.HasBody(r.verb) then ParsingIncomplete else ParsingCompleted
  {
    hide IsContentLength, IsChunked, Announced, AnyChunked, GoodHeader, FitsSize, HeaderLine;
    OneByteAnnounced();
    var m := AfterLine(r);
    assert WithHeaders(m, []) == m by { assert Announced([]) == 0 && !AnyChunked([]) by { EmptyAnnounces(); } }
    HeaderRun(m, "", m, [], ONE_BYTE);
    assert "" + HeaderLine(ONE_BYTE) == HeaderLine(ONE_BYTE) && [] + [ONE_BYTE] == [ONE_BYTE];
    var n := WithHeaders(m, [ONE_BYTE]);
    ThenByte(m, HeaderLine(ONE_BYTE), n, '\r');
    ConsumeAppend(m, HeaderLine(ONE_BYTE) + "\r", "\n");
    var e := n.(state := Q.Block(Q.ExpectingNewline_3));
    assert "\n"[1..] == "" && Q.Consume(e, "\n") == (if Q.HasBody(r.verb) then Q.More(Q.Step(e, '\n').m) else Q.Step(e, '\n'));
  }

  lemma EmptyAnnounces()
    ensures Announced([]) == 0 && !AnyChunked([])
  {
  }

  /** The two parsers agree on every header block and body exactly when the method is POST or PUT. */
  lemma AgreeExactlyOnBodyMethods(r: Q.Request, p: P.Machine)
    requires Same(AfterLine(r), p) && p.Ok()
    ensures Q.HasBody(r.verb) <==> forall input :: Q.Consume(AfterLine(r), input).result == P.Consume(p, input).result
  {
    if Q.HasBody(r.verb) {
      forall input ensures Q.Consume(AfterLine(r), input).result == P.Consume(p, input).result {
        Simulate(AfterLine(r), p, input);
      }
    } else {
      var input, post := HeaderLine(ONE_BYTE) + "\r" + "\n", r.(verb := "POST");
      OneByteRequest(r);
      OneByteRequest(post);
      Simulate(AfterLine(post), p, input);
      assert Q.Consume(AfterLine(r), input).result != P.Consume(p, input).result;
    }
  }
}
