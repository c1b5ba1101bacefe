/** Incomplete means what it says: the parsers ask for more exactly while some continuation finishes, so that an
    error is reported at the very byte behind which nothing can. One state of the response parser is the exception. */
module HttpPrefixes {
  import opened Ascii
  import opened HttpCommon
  import opened HttpRequestParser
  import opened HttpRequestRuns
  import opened HttpRequestRoundTrip
  import opened HttpRequestInvariant
  import P = HttpResponseParser
  import R = HttpResponseRoundTrip
  import J = HttpResponseInvariant
  import S = HttpSimulation

  /** The input is read to its last byte, which completes the message or asks for a string too long. */
  ghost predicate Finishes(m: Machine, t: string) {
    m.Ok() && Consume(m, t).result in {ParsingCompleted, Thrown} && Consumed(m, t) == |t|
  }

  /** A byte that brings the message nearer to its end. */
  function NextByte(s: State): char {
    match s
    case Line(l) =>
      (match l
       case RequestMethodStart => 'G'
       case RequestMethod => ' '
       case RequestUriStart => '/'
       case RequestUri => '\r'
       case RequestHttpVersion_h => 'H'
       case RequestHttpVersion_ht => 'T'
       case RequestHttpVersion_htt => 'T'
       case RequestHttpVersion_http => 'P'
       case RequestHttpVersion_slash => '/'
       case RequestHttpVersion_majorStart => '1'
       case RequestHttpVersion_major => '.'
       case RequestHttpVersion_minorStart => '1'
       case RequestHttpVersion_minor => '\r'
       case ResponseHttpVersion_newLine => '\n')
    case Block(b) =>
      (match b
       case HeaderName => ':'
       case SpaceBeforeHeaderValue => ' '
       case ExpectingNewline_2 => '\n'
       case ExpectingNewline_3 => '\n'
       case _ => '\r')
    case Body(b) =>
      (match b
       case Post => 'x'
       case ChunkSizeNewLine => '\n'
       case ChunkSizeNewLine_3 => '\n'
       case ChunkTrailerName => ':'
       case ChunkDataNewLine_2 => '\n'
       case ChunkData => 'x'
       case _ => '\r')
  }

  /** At most so many of those bytes are missing. */
  function Rank(m: Machine): nat {
    match m.state
    case Line(l) =>
      (match l
       case RequestMethodStart => 4
       case RequestMethod => 3
       case RequestUriStart => 2
       case RequestUri => 1
       case RequestHttpVersion_h => 16
       case RequestHttpVersion_ht => 15
       case RequestHttpVersion_htt => 14
       case RequestHttpVersion_http => 13
       case RequestHttpVersion_slash => 12
       case RequestHttpVersion_majorStart => 11
       case RequestHttpVersion_major => 10
       case RequestHttpVersion_minorStart => 9
       case RequestHttpVersion_minor => 8
       case ResponseHttpVersion_newLine => 7)
    case Block(b) => m.contentSize + BlockRank(b, m.req.headers)
    case Body(b) => BodyRank(b, m)
  }

  function BlockRank(b: BlockState, headers: seq<HeaderItem>): nat {
    match b
    case HeaderLineStart => 6
    case HeaderLws => 8
    case HeaderName => 10 + LastLength(headers)
    case SpaceBeforeHeaderValue => 9 + LastLength(headers)
    case HeaderValue => 8 + LastLength(headers)
    case ExpectingNewline_2 => 7
    case ExpectingNewline_3 => 5
  }

  /** The length the last header announces if it is a Content-Length. */
  function LastLength(headers: seq<HeaderItem>): nat { if headers == [] then 0 else ToSize(Atoi(Last(headers).value)) }

  function BodyRank(b: BodyState, m: Machine): nat {
    match b
    case Post => m.contentSize
    case ChunkSize => SizeRank(m.chunkSizeStr) + 1
    case ChunkExtensionName => SizeRank(m.chunkSizeStr) + 1
    case ChunkExtensionValue => SizeRank(m.chunkSizeStr) + 1
    case ChunkSizeNewLine => SizeRank(m.chunkSizeStr)
    case ChunkSizeNewLine_2 => 2
    case ChunkSizeNewLine_3 => 1
    case ChunkTrailerName => 5
    case ChunkTrailerValue => 4
    case ChunkDataNewLine_1 => 6
    case ChunkDataNewLine_2 => 5
    case ChunkData => 6 + m.chunkSize
  }

  function SizeRank(size: string): nat { if ChunkLength(size) == 0 then 3 else 7 + ChunkLength(size) }

  ghost predicate Nearer(m: Machine, o: Outcome) {
    o.result in {ParsingCompleted, Thrown} || (o.result.ParsingIncomplete? && Rank(o.m) < Rank(m))
  }

  lemma LineNearer(m: Machine)
    requires Inv(m) && m.state.Line?
    ensures Nearer(m, LineStep(m, NextByte(m.state)))
  {
  }

  lemma BlockNearer(m: Machine)
    requires Inv(m) && m.state.Block?
    ensures Nearer(m, BlockStep(m, NextByte(m.state)))
  {
    hide Atoi, IsContentLength, IsChunked, HasBody, KeepAlive, FitsSize, ChunkLength, BlockInv;
    NoSize(m);
    SizeOfNothing();
  }

  lemma NoSize(m: Machine)
    ensures Inv(m) && m.state.Block? ==> m.chunkSizeStr == ""
  {
  }

  lemma SizeOfNothing()
    ensures ChunkLength("") == 0
  {
  }

  lemma BodyNearer(m: Machine)
    requires Inv(m) && m.state.Body?
    ensures Nearer(m, BodyStep(m, NextByte(m.state)))
  {
    hide ChunkLength, GoodHead, WellFramed;
    SizeOfNothing();
  }

  lemma {:induction false} Continues(m: Machine) returns (t: string)
    requires Inv(m)
    ensures t != "" && Finishes(m, t)
    decreases Rank(m)
  {
    hide LineStep, BlockStep, BodyStep, LineInv, BlockInv, BodyInv, Rank, NextByte;
    var c := NextByte(m.state);
    match m.state {
      case Line(_) => LineNearer(m);
      case Block(_) => BlockNearer(m);
      case Body(_) => BodyNearer(m);
    }
    StepKeepsInv(m, c);
    if Step(m, c).result.ParsingIncomplete? {
      var rest := Continues(Step(m, c).m);
      t := [c] + rest;
      assert t[1..] == rest;
    } else {
      t := [c];
    }
  }

  /** The request parser answers Incomplete exactly on the proper prefixes of the inputs that finish. */
  lemma IncompleteExactly(s: string)
    ensures Consume(FRESH, s).result.ParsingIncomplete? <==> exists t :: t != "" && Finishes(FRESH, s + t)
  {
    hide Consume, Consumed, Inv;
    if Consume(FRESH, s).result.ParsingIncomplete? {
      ReachableInvariant(s);
      var t := Continues(Consume(FRESH, s).m);
      ConsumeAppend(FRESH, s, t);
      assert Finishes(FRESH, s + t);
    }
    forall t | t != "" && Finishes(FRESH, s + t) ensures Consume(FRESH, s).result.ParsingIncomplete? { ConsumeAppend(FRESH, s, t); }
  }

  // ---------- Responses ----------

  ghost predicate ResponseFinishes(p: P.Machine, t: string) {
    p.Ok() && P.Consume(p, t).result in {ParsingCompleted, Thrown} && P.Consumed(p, t) == |t|
  }

  /** A status code above 999 is turned down only at the byte behind its digits. */
  predicate CodeTooLong(p: P.Machine) { p.state == P.Line(P.ResponseHttpVersion_statusCode) && p.resp.statusCode > 999 }

  function NextLineByte(l: P.LineState, code: nat): char {
    match l
    case ResponseStatusStart => 'H'
    case ResponseHttpVersion_ht => 'T'
    case ResponseHttpVersion_htt => 'T'
    case ResponseHttpVersion_http => 'P'
    case ResponseHttpVersion_slash => '/'
    case ResponseHttpVersion_majorStart => '1'
    case ResponseHttpVersion_major => '.'
    case ResponseHttpVersion_minorStart => '1'
    case ResponseHttpVersion_minor => ' '
    case ResponseHttpVersion_statusCodeStart => '1'
    case ResponseHttpVersion_statusCode => if code < 100 then '9' else ' '
    case ResponseHttpVersion_statusTextStart => 'x'
    case ResponseHttpVersion_statusText => '\r'
    case ResponseHttpVersion_newLine => '\n'
  }

  function LineRank(l: P.LineState, code: nat): nat {
    match l
    case ResponseStatusStart => 16
    case ResponseHttpVersion_ht => 15
    case ResponseHttpVersion_htt => 14
    case ResponseHttpVersion_http => 13
    case ResponseHttpVersion_slash => 12
    case ResponseHttpVersion_majorStart => 11
    case ResponseHttpVersion_major => 10
    case ResponseHttpVersion_minorStart => 9
    case ResponseHttpVersion_minor => 8
    case ResponseHttpVersion_statusCodeStart => 7
    case ResponseHttpVersion_statusCode => 3 + (if code < 1 then 3 else if code < 10 then 2 else if code < 100 then 1 else 0)
    case ResponseHttpVersion_statusTextStart => 2
    case ResponseHttpVersion_statusText => 1
    case ResponseHttpVersion_newLine => 0
  }

  lemma StatusNearer(p: P.Machine)
    requires p.state.Line? && !CodeTooLong(p)
    ensures var o := P.LineStep(p, NextLineByte(p.state.line, p.resp.statusCode));
            && o.result.ParsingIncomplete? && !CodeTooLong(o.m)
            && (o.m.state.Line? ==> LineRank(o.m.state.line, o.m.resp.statusCode) < LineRank(p.state.line, p.resp.statusCode))
  {
  }

  lemma {:induction false} ResponseContinues(p: P.Machine) returns (t: string)
    requires J.Inv(p) && !CodeTooLong(p)
    ensures t != "" && ResponseFinishes(p, t)
    decreases if p.state.Line? then 1 + LineRank(p.state.line, p.resp.statusCode) else 0
  {
    hide P.LineStep, P.BlockStep, P.BodyStep, J.LineInv, J.TailInv, LineRank, NextLineByte, CodeTooLong, Inv, P.Consume, P.Consumed;
    if p.state.Line? {
      var c := NextLineByte(p.state.line, p.resp.statusCode);
      J.InLine(p);
      StatusNearer(p);
      J.LineKeepsInv(p, c);
      var n := P.LineStep(p, c).m;
      if !n.state.Line? { StatusEnds(n); }
      var rest := ResponseContinues(n);
      t := [c] + rest;
      FirstByte(p, c, rest);
    } else {
      var q := Corresponding(p);
      t := Continues(q);
      S.Simulate(q, p, t);
    }
  }

  lemma FirstByte(p: P.Machine, c: char, rest: string)
    requires p.Ok() && P.Step(p, c).result.ParsingIncomplete? && ResponseFinishes(P.Step(p, c).m, rest)
    ensures ResponseFinishes(p, [c] + rest)
  {
    assert ([c] + rest)[1..] == rest;
  }

  lemma StatusEnds(p: P.Machine)
    requires p == R.AfterLine(p.resp) && R.GoodStatus(p.resp)
    ensures J.Inv(p) && !CodeTooLong(p)
  {
    J.CarrierInv(p.resp);
    R.CarrierStarts(p.resp);
  }

  lemma Corresponding(p: P.Machine) returns (q: Machine)
    requires J.TailInv(p)
    ensures S.Same(q, p) && Inv(q) && q.Ok() && p.Ok() && HasBody(q.req.verb)
  {
    q :| J.Carries(q, p) && Inv(q);
  }

  lemma {:induction false} TooLongStays(p: P.Machine, t: string)
    requires CodeTooLong(p)
    ensures P.Consume(p, t).result in {ParsingIncomplete, ParsingError}
    decreases |t|
  {
    if t != "" && IsDigit(t[0]) { TooLongStays(P.Step(p, t[0]).m, t[1..]); }
  }

  /** The response parser answers Incomplete exactly on the proper prefixes of the inputs that finish, and behind
      a status code above 999. */
  lemma ResponseIncompleteExactly(s: string)
    ensures var o := P.Consume(P.FRESH, s);
            && (o.result.ParsingIncomplete? && !CodeTooLong(o.m) <==> exists t :: t != "" && ResponseFinishes(P.FRESH, s + t))
  {
    hide P.Consume, P.Consumed, J.Inv, CodeTooLong;
    var o := P.Consume(P.FRESH, s);
    if o.result.ParsingIncomplete? && !CodeTooLong(o.m) {
      J.ReachableInvariant(s);
      var t := ResponseContinues(o.m);
      R.ConsumeAppend(P.FRESH, s, t);
      assert ResponseFinishes(P.FRESH, s + t);
    }
    forall t | t != "" && ResponseFinishes(P.FRESH, s + t) ensures o.result.ParsingIncomplete? && !CodeTooLong(o.m) {
      R.ConsumeAppend(P.FRESH, s, t);
      if CodeTooLong(o.m) { TooLongStays(o.m, t); }
    }
  }
}
