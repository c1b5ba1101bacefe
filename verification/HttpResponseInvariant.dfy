/** The invariant of every state a fresh response parser reaches while its results are Incomplete: the status
    line has one of its own, headers and body that of the request parser they simulate. */
module HttpResponseInvariant {
  import opened Ascii
  import opened HttpCommon
  import opened HttpResponseParser
  import opened HttpResponseRoundTrip
  import Q = HttpRequestParser
  import R = HttpRequestRuns
  import T = HttpRequestRoundTrip
  import I = HttpRequestInvariant
  import S = HttpSimulation

  ghost predicate GoodText(status: string) { status != "" && IsChar(status[0]) && All(IsStatusByte, status[1..]) }

  /** The status text has begun. */
  predicate InText(s: LineState) { s.ResponseHttpVersion_statusText? || s.ResponseHttpVersion_newLine? }

  ghost predicate LineInv(m: Machine) {
    && m.state.Line? && m.Ok() && m.contentSize == 0 && !m.chunked && m.chunkSizeStr == "" && m.chunkSize == 0
    && m.resp.headers == [] && m.resp.content == "" && !m.resp.keepAlive
    && (if InText(m.state.line) then GoodText(m.resp.status) else m.resp.status == "")
    && (InText(m.state.line) || m.state.line.ResponseHttpVersion_statusTextStart? ==> 100 <= m.resp.statusCode <= 999)
  }

  lemma TextGrows(s: string, c: char)
    ensures s == "" && IsChar(c) ==> GoodText(s + [c])
    ensures GoodText(s) && IsStatusByte(c) ==> GoodText(s + [c])
  {
    if s != "" { assert (s + [c])[1..] == s[1..] + [c]; }
  }

  lemma LineKeepsInv(m: Machine, c: char)
    requires LineInv(m) && LineStep(m, c).result.ParsingIncomplete?
    ensures var n := LineStep(m, c).m;
            if n.state.Line? then LineInv(n) else n == AfterLine(n.resp) && GoodStatus(n.resp)
  {
    hide GoodText, IsChar, DigitValue;
    TextGrows(m.resp.status, c);
    if m.state == Line(ResponseHttpVersion_newLine) { GoodTextIsStatus(m.resp); }
    if m.state == Line(ResponseHttpVersion_statusText) && IsChar(c) && c != '\r' { assert IsStatusByte(c); }
  }

  lemma GoodTextIsStatus(r: Response)
    requires GoodText(r.status) && 100 <= r.statusCode <= 999
    ensures GoodStatus(r)
  {
  }

  lemma NoneCompletesInLine(m: Machine, c: char)
    requires m.state.Line?
    ensures !LineStep(m, c).result.ParsingCompleted?
  {
  }

  /** Either the status line goes on to the end of the input, or it ends after `k` bytes. */
  lemma {:induction false} StatusLineEnds(m: Machine, input: string) returns (k: nat)
    requires LineInv(m)
    ensures var o := Consume(m, input);
            || (o.m.state.Line? && (o.result.ParsingIncomplete? ==> LineInv(o.m)) && !o.result.ParsingCompleted?)
            || (&& k <= |input| && Consume(m, input[..k]).result.ParsingIncomplete?
                && var n := Consume(m, input[..k]).m;
                   n == AfterLine(n.resp) && GoodStatus(n.resp) && o == Consume(n, input[k..]))
    decreases |input|
  {
    hide LineInv, LineStep, BlockStep, BodyStep, GoodStatus;
    k := 0;
    InLine(m);
    if input != "" {
      var o := Step(m, input[0]);
      if o.result.ParsingIncomplete? {
        LineKeepsInv(m, input[0]);
        if o.m.state.Line? {
          var j := StatusLineEnds(o.m, input[1..]);
          k := j + 1;
          if j < |input| { assert input[..k][0] == input[0] && input[..k][1..] == input[1..][..j] && input[k..] == input[1..][j..]; }
        } else {
          k := 1;
          assert input[..1][0] == input[0] && input[..1][1..] == "";
        }
      } else {
        NoneCompletesInLine(m, input[0]);
        StopsInLine(m, input[0]);
      }
    }
  }

  lemma InLine(m: Machine)
    requires LineInv(m)
    ensures m.state.Line? && m.Ok()
  {
  }

  lemma StopsInLine(m: Machine, c: char)
    requires m.state.Line? && !LineStep(m, c).result.ParsingIncomplete?
    ensures LineStep(m, c).m.state.Line?
  {
  }

  // ---------- Headers and body ----------

  /** The request machine that `p` simulates, for the method and URI of a carrier. */
  ghost predicate Carries(q: Q.Machine, p: Machine) { S.Same(q, p) && q.req == Carrier(p.resp) }

  /** Past the status line: the status is good, and the request parser could be in the corresponding state. */
  ghost predicate TailInv(p: Machine) {
    !p.state.Line? && GoodStatus(p.resp) && exists q :: Carries(q, p) && I.Inv(q)
  }

  ghost predicate Inv(p: Machine) { if p.state.Line? then LineInv(p) else TailInv(p) }

  lemma CarrierInv(r: Response)
    ensures I.Inv(T.AfterLine(Carrier(r)))
  {
    CarrierStarts(r);
  }

  lemma TailKeepsInv(r: Response, tail: string)
    requires GoodStatus(r)
    ensures var o := Consume(AfterLine(r), tail);
            && (o.result.ParsingIncomplete? ==> TailInv(o.m))
            && (o.result.ParsingCompleted? ==>
                  && GoodStatus(o.m.resp) && T.GoodHead(Carrier(o.m.resp))
                  && (o.m.state in {Block(ExpectingNewline_3), Body(Post)} ==> T.WellFormed(Carrier(o.m.resp))))
  {
    hide I.Inv, Consume, Q.Consume, T.GoodHead, T.WellFormed;
    var q := T.AfterLine(Carrier(r));
    CarrierStarts(r);
    CarrierInv(r);
    S.Simulate(q, AfterLine(r), tail);
    I.RunKeepsInv(q, tail);
    var o, p := Q.Consume(q, tail), Consume(AfterLine(r), tail);
    assert Carries(o.m, p.m);
    assert GoodStatus(p.m.resp);
    CorrespondingEnds(o.m, p.m);
  }

  lemma CorrespondingEnds(q: Q.Machine, p: Machine)
    requires S.Same(q, p)
    ensures !q.state.Line? && !p.state.Line?
    ensures p.state == Block(ExpectingNewline_3) ==> q.state == Q.Block(Q.ExpectingNewline_3)
    ensures p.state == Body(Post) ==> q.state == Q.Body(Q.Post)
    ensures p.state == Body(ChunkSizeNewLine_3) <==> q.state == Q.Body(Q.ChunkSizeNewLine_3)
  {
  }

  /** Every state reached with Incomplete satisfies the invariant, and every completed response has a good
      status line and head and, unless chunked, the body its head announces. */
  lemma ReachableInvariant(input: string)
    ensures var o := Consume(FRESH, input);
            && (o.result.ParsingIncomplete? ==> Inv(o.m))
            && (o.result.ParsingCompleted? ==>
                  && GoodStatus(o.m.resp) && T.GoodHead(Carrier(o.m.resp))
                  && (o.m.state in {Block(ExpectingNewline_3), Body(Post)} ==> T.WellFormed(Carrier(o.m.resp))))
  {
    hide Consume, T.GoodHead, T.WellFormed, GoodStatus, TailInv;
    var k := StatusLineEnds(FRESH, input);
    if k <= |input| && Consume(FRESH, input[..k]).result.ParsingIncomplete? {
      var n := Consume(FRESH, input[..k]).m;
      if n == AfterLine(n.resp) && GoodStatus(n.resp) && Consume(FRESH, input) == Consume(n, input[k..]) {
        TailKeepsInv(n.resp, input[k..]);
        TailLeavesLine(Consume(FRESH, input).m);
      }
    }
  }

  lemma TailLeavesLine(p: Machine)
    ensures TailInv(p) ==> !p.state.Line?
  {
  }

  /** What an unchunked parse delivers prints to bytes that deliver it again. */
  lemma ParsePrintParse(input: string)
    requires var o := Consume(FRESH, input);
             o.result.ParsingCompleted? && o.m.state in {Block(ExpectingNewline_3), Body(Post)}
    ensures var r := Consume(FRESH, input).m.resp;
            var o := Consume(FRESH, StatusLine(r) + Tail(r));
            o.result.ParsingCompleted? && o.m.resp == r && Consumed(FRESH, StatusLine(r) + Tail(r)) == |StatusLine(r) + Tail(r)|
  {
    hide Consume, Consumed, GoodStatus, T.GoodHead, T.WellFormed, StatusLine;
    ReachableInvariant(input);
    PrintThenParse(Consume(FRESH, input).m.resp);
  }

  /** A response is read back from its print, to the last byte, exactly when status line, headers and body
      are well formed. */
  lemma RoundTripExactly(r: Response)
    ensures var t := StatusLine(r) + Tail(r);
            var o := Consume(FRESH, t);
            o.result.ParsingCompleted? && o.m.resp == r && Consumed(FRESH, t) == |t| <==> GoodStatus(r) && T.WellFormed(Carrier(r))
  {
    hide Consume, Consumed, Q.Consume, Q.Consumed, GoodStatus, T.GoodHead, T.WellFormed, StatusLine, R.StartLine, R.HeaderLines,
         S.BlockImage, S.BodyImage;
    var t, q := StatusLine(r) + Tail(r), Carrier(r);
    if GoodStatus(r) && T.WellFormed(q) { PrintThenParse(r); }
    if Consume(FRESH, t).result.ParsingCompleted? && Consume(FRESH, t).m.resp == r && Consumed(FRESH, t) == |t| {
      ReachableInvariant(t);
      TailTransfers(r, Tail(r));
      var start := R.StartLine(R.Target(q.verb, q.uri), q.versionMajor, q.versionMinor);
      CarrierStarts(r);
      T.StartLineRun(q);
      R.ConsumeAppend(Q.FRESH, start, Tail(r));
      Regroup(start, R.HeaderLines(r.headers), r.content);
      I.RoundTripExactly(q);
    }
  }
}
