/** The incremental response parser: `HttpResponseParser` over a `Response`, one byte at a time, in the
    same arrangement as the request parser. */
module HttpResponseParser {
  import opened Ascii
  import opened HttpCommon

  datatype LineState =
    | ResponseStatusStart | ResponseHttpVersion_ht | ResponseHttpVersion_htt | ResponseHttpVersion_http
    | ResponseHttpVersion_slash | ResponseHttpVersion_majorStart | ResponseHttpVersion_major
    | ResponseHttpVersion_minorStart | ResponseHttpVersion_minor | ResponseHttpVersion_statusCodeStart
    | ResponseHttpVersion_statusCode | ResponseHttpVersion_statusTextStart | ResponseHttpVersion_statusText
    | ResponseHttpVersion_newLine

  datatype BlockState =
    | HeaderLineStart | HeaderLws | HeaderName | SpaceBeforeHeaderValue | HeaderValue | ExpectingNewline_2
    | ExpectingNewline_3

  datatype BodyState =
    | Post | ChunkSize | ChunkExtensionName | ChunkExtensionValue | ChunkSizeNewLine | ChunkSizeNewLine_2
    | ChunkSizeNewLine_3 | ChunkTrailerName | ChunkTrailerValue | ChunkDataNewLine_1 | ChunkDataNewLine_2
    | ChunkData

  datatype State = Line(line: LineState) | Block(block: BlockState) | Body(body: BodyState)

  datatype Response = Response(versionMajor: nat, versionMinor: nat, headers: seq<HeaderItem>, content: string,
                               keepAlive: bool, statusCode: nat, status: string)

  const EMPTY_RESPONSE := Response(0, 0, [], "", false, 0, "")

  datatype Machine = Machine(state: State, contentSize: nat, chunkSizeStr: string, chunkSize: nat,
                             chunked: bool, resp: Response)
  {
    /** `headers.back()` exists wherever the parser uses it. */
    predicate Ok() {
      state in {Block(HeaderLws), Block(HeaderName), Block(SpaceBeforeHeaderValue), Block(HeaderValue)} ==> resp.headers != []
    }
  }

  const FRESH := Machine(Line(ResponseStatusStart), 0, "", 0, false, EMPTY_RESPONSE)

  datatype Outcome = Outcome(result: ParseResult, m: Machine)

  function More(m: Machine): Outcome { Outcome(ParsingIncomplete, m) }

  function Fail(m: Machine): Outcome { Outcome(ParsingError, m) }

  function LineStep(m: Machine, c: char): (o: Outcome)
    requires m.state.Line?
    ensures o.m.Ok()
  {
    var r := m.resp;
    match m.state.line
    case ResponseStatusStart => if c != 'H' then Fail(m) else More(m.(state := Line(ResponseHttpVersion_ht)))
    case ResponseHttpVersion_ht => if c == 'T' then More(m.(state := Line(ResponseHttpVersion_htt))) else Fail(m)
    case ResponseHttpVersion_htt => if c == 'T' then More(m.(state := Line(ResponseHttpVersion_http))) else Fail(m)
    case ResponseHttpVersion_http => if c == 'P' then More(m.(state := Line(ResponseHttpVersion_slash))) else Fail(m)
    case ResponseHttpVersion_slash =>
      if c == '/' then More(m.(state := Line(ResponseHttpVersion_majorStart), resp := r.(versionMajor := 0, versionMinor := 0)))
      else Fail(m)
    case ResponseHttpVersion_majorStart =>
      if IsDigit(c) then More(m.(state := Line(ResponseHttpVersion_major), resp := r.(versionMajor := DigitValue(c))))
      else Fail(m)
    case ResponseHttpVersion_major =>
      if c == '.' then More(m.(state := Line(ResponseHttpVersion_minorStart)))
      else if IsDigit(c) then More(m.(resp := r.(versionMajor := r.versionMajor * 10 + DigitValue(c))))
      else Fail(m)
    case ResponseHttpVersion_minorStart =>
      if IsDigit(c) then More(m.(state := Line(ResponseHttpVersion_minor), resp := r.(versionMinor := DigitValue(c))))
      else Fail(m)
    case ResponseHttpVersion_minor =>
      if c == ' ' then More(m.(state := Line(ResponseHttpVersion_statusCodeStart), resp := r.(statusCode := 0)))
      else if IsDigit(c) then More(m.(resp := r.(versionMinor := r.versionMinor * 10 + DigitValue(c))))
      else Fail(m)
    case ResponseHttpVersion_statusCodeStart =>
      if IsDigit(c) then More(m.(state := Line(ResponseHttpVersion_statusCode), resp := r.(statusCode := DigitValue(c))))
      else Fail(m)
    case ResponseHttpVersion_statusCode =>
      if IsDigit(c) then More(m.(resp := r.(statusCode := r.statusCode * 10 + DigitValue(c))))
      else if r.statusCode < 100 || r.statusCode > 999 then Fail(m)
      else if c == ' ' then More(m.(state := Line(ResponseHttpVersion_statusTextStart)))
      else Fail(m)
    case ResponseHttpVersion_statusTextStart =>
      if IsChar(c) then More(m.(state := Line(ResponseHttpVersion_statusText), resp := r.(status := r.status + [c])))
      else Fail(m)
    case ResponseHttpVersion_statusText =>
      if c == '\r' then More(m.(state := Line(ResponseHttpVersion_newLine)))
      else if IsChar(c) then More(m.(resp := r.(status := r.status + [c])))
      else Fail(m)
    case ResponseHttpVersion_newLine => if c == '\n' then More(m.(state := Block(HeaderLineStart))) else Fail(m)
  }

  /** The effect of the CR that ends a header value. */
  function EndOfValue(m: Machine): Outcome
    requires m.resp.headers != []
  {
    var h := Last(m.resp.headers);
    var next := m.(state := Block(ExpectingNewline_2));
    if IsContentLength(h) then
      var n := ToSize(Atoi(h.value));
      if n > MAX_SIZE then Outcome(Thrown, m.(contentSize := n)) else More(next.(contentSize := n))
    else More(next.(chunked := m.chunked || IsChunked(h)))
  }

  function BlockStep(m: Machine, c: char): (o: Outcome)
    requires m.state.Block? && m.Ok()
    ensures o.m.Ok()
  {
    var r := m.resp;
    match m.state.block
    case HeaderLineStart =>
      if c == '\r' then More(m.(state := Block(ExpectingNewline_3)))
      else if r.headers != [] && (c == ' ' || c == '\t') then More(m.(state := Block(HeaderLws)))
      else if IsToken(c) then More(m.(state := Block(HeaderName), resp := r.(headers := r.headers + [HeaderItem([c], "")])))
      else Fail(m)
    case HeaderLws =>
      if c == '\r' then More(m.(state := Block(ExpectingNewline_2)))
      else if c == ' ' || c == '\t' then More(m)
      else if IsControl(c) then Fail(m)
      else More(m.(state := Block(HeaderValue), resp := r.(headers := AppendToValue(r.headers, c))))
    case HeaderName =>
      if c == ':' then More(m.(state := Block(SpaceBeforeHeaderValue)))
      else if IsToken(c) then More(m.(resp := r.(headers := AppendToName(r.headers, c))))
      else Fail(m)
    case SpaceBeforeHeaderValue => if c == ' ' then More(m.(state := Block(HeaderValue))) else Fail(m)
    case HeaderValue =>
      if c == '\r' then EndOfValue(m)
      else if IsControl(c) then Fail(m)
      else More(m.(resp := r.(headers := AppendToValue(r.headers, c))))
    case ExpectingNewline_2 => if c == '\n' then More(m.(state := Block(HeaderLineStart))) else Fail(m)
    case ExpectingNewline_3 =>
      var n := m.(resp := r.(keepAlive := KeepAlive(r.headers, r.versionMajor, r.versionMinor, r.keepAlive)));
      if m.chunked then More(n.(state := Body(ChunkSize)))
      else if m.contentSize == 0 then Outcome(if c == '\n' then ParsingCompleted else ParsingError, n)
      else More(n.(state := Body(Post)))
  }

  function BodyStep(m: Machine, c: char): (o: Outcome)
    requires m.state.Body?
    ensures o.m.Ok()
  {
    var r := m.resp;
    match m.state.body
    case Post =>
      var n := m.(contentSize := Decrement(m.contentSize), resp := r.(content := r.content + [c]));
      Outcome(if n.contentSize == 0 then ParsingCompleted else ParsingIncomplete, n)
    case ChunkSize =>
      if IsAlnum(c) then More(m.(chunkSizeStr := m.chunkSizeStr + [c]))
      else if c == ';' then More(m.(state := Body(ChunkExtensionName)))
      else if c == '\r' then More(m.(state := Body(ChunkSizeNewLine)))
      else Fail(m)
    case ChunkExtensionName =>
      if IsAlnum(c) || c == ' ' then More(m)
      else if c == '=' then More(m.(state := Body(ChunkExtensionValue)))
      else if c == '\r' then More(m.(state := Body(ChunkSizeNewLine)))
      else Fail(m)
    case ChunkExtensionValue =>
      if IsAlnum(c) || c == ' ' then More(m)
      else if c == '\r' then More(m.(state := Body(ChunkSizeNewLine)))
      else Fail(m)
    case ChunkSizeNewLine =>
      if c != '\n' then Fail(m)
      else
        var size := ChunkLength(m.chunkSizeStr);
        var n := m.(chunkSize := size, chunkSizeStr := "");
        if |r.content| + size > MAX_SIZE then Outcome(Thrown, n)
        else More(n.(state := if size == 0 then Body(ChunkSizeNewLine_2) else Body(ChunkData)))
    case ChunkSizeNewLine_2 =>
      if c == '\r' then More(m.(state := Body(ChunkSizeNewLine_3)))
      else if IsAlpha(c) then More(m.(state := Body(ChunkTrailerName)))
      else Fail(m)
    case ChunkSizeNewLine_3 => Outcome(if c == '\n' then ParsingCompleted else ParsingError, m)
    case ChunkTrailerName =>
      if IsAlnum(c) then More(m) else if c == ':' then More(m.(state := Body(ChunkTrailerValue))) else Fail(m)
    case ChunkTrailerValue =>
      if IsAlnum(c) || c == ' ' then More(m)
      else if c == '\r' then More(m.(state := Body(ChunkSizeNewLine)))
      else Fail(m)
    case ChunkDataNewLine_1 => if c == '\r' then More(m.(state := Body(ChunkDataNewLine_2))) else Fail(m)
    case ChunkDataNewLine_2 => if c == '\n' then More(m.(state := Body(ChunkSize))) else Fail(m)
    case ChunkData =>
      var n := m.(chunkSize := Decrement(m.chunkSize), resp := r.(content := r.content + [c]));
      More(n.(state := if n.chunkSize == 0 then Body(ChunkDataNewLine_1) else Body(ChunkData)))
  }

  function Step(m: Machine, c: char): (o: Outcome)
    requires m.Ok()
    ensures o.m.Ok()
  {
    hide LineStep, BlockStep, BodyStep;
    if m.state.Line? then LineStep(m, c)
    else if m.state.Block? then BlockStep(m, c)
    else BodyStep(m, c)
  }

  /** One call on `input`: stops at the first result other than Incomplete. */
  function Consume(m: Machine, input: string): (o: Outcome)
    requires m.Ok()
    ensures o.m.Ok()
    decreases |input|
  {
    if input == "" then More(m)
    else
      var o := Step(m, input[0]);
      if o.result.ParsingIncomplete? then Consume(o.m, input[1..]) else o
  }

  /** How many bytes of `input` that call looks at. */
  function Consumed(m: Machine, input: string): (k: nat)
    requires m.Ok()
    ensures k <= |input|
    decreases |input|
  {
    if input == "" then 0
    else
      var o := Step(m, input[0]);
      if o.result.ParsingIncomplete? then 1 + Consumed(o.m, input[1..]) else 1
  }

  class ResponseObject {
    var versionMajor: nat
    var versionMinor: nat
    var headers: seq<HeaderItem>
    var content: string
    var keepAlive: bool
    var statusCode: nat
    var status: string

    function Value(): Response reads this {
      Response(versionMajor, versionMinor, headers, content, keepAlive, statusCode, status)
    }

    constructor ()
      ensures Value() == EMPTY_RESPONSE
    {
      versionMajor, versionMinor, headers, content := 0, 0, [], "";
      keepAlive, statusCode, status := false, 0, "";
    }
  }

  class Parser {
    var state: State
    var contentSize: nat
    var chunkSizeStr: string
    var chunkSize: nat
    var chunked: bool

    function View(resp: ResponseObject): Machine reads this, resp {
      Machine(state, contentSize, chunkSizeStr, chunkSize, chunked, resp.Value())
    }

    constructor ()
      ensures forall resp: ResponseObject | resp.Value() == EMPTY_RESPONSE :: View(resp) == FRESH
    {
      state, contentSize, chunkSizeStr, chunkSize, chunked := Line(ResponseStatusStart), 0, "", 0, false;
    }

    method Parse(resp: ResponseObject, input: string) returns (result: ParseResult)
      requires View(resp).Ok()
      modifies this, resp
      ensures View(resp).Ok()
      ensures Outcome(result, View(resp)) == Consume(old(View(resp)), input)
    {
      var i := 0;
      while i < |input|
        invariant i <= |input| && View(resp).Ok()
        invariant Consume(View(resp), input[i..]) == Consume(old(View(resp)), input)
      {
        var c := input[i];
        assert input[i..][1..] == input[i + 1..];
        i := i + 1;
        if state.Line? {
          result := LineByte(resp, c);
        } else if state.Block? {
          result := BlockByte(resp, c);
        } else {
          result := BodyByte(resp, c);
        }
        if result != ParsingIncomplete { return; }
      }
      result := ParsingIncomplete;
    }

    method LineByte(resp: ResponseObject, c: char) returns (result: ParseResult)
      requires state.Line?
      modifies this, resp
      ensures Outcome(result, View(resp)) == LineStep(old(View(resp)), c)
    {
      result := ParsingIncomplete;
      match state.line
      case ResponseStatusStart =>
        if c != 'H' { return ParsingError; } else { state := Line(ResponseHttpVersion_ht); }
      case ResponseHttpVersion_ht =>
        if c == 'T' { state := Line(ResponseHttpVersion_htt); } else { return ParsingError; }
      case ResponseHttpVersion_htt =>
        if c == 'T' { state := Line(ResponseHttpVersion_http); } else { return ParsingError; }
      case ResponseHttpVersion_http =>
        if c == 'P' { state := Line(ResponseHttpVersion_slash); } else { return ParsingError; }
      case ResponseHttpVersion_slash =>
        if c == '/' {
          resp.versionMajor := 0;
          resp.versionMinor := 0;
          state := Line(ResponseHttpVersion_majorStart);
        } else {
          return ParsingError;
        }
      case ResponseHttpVersion_majorStart =>
        if IsDigit(c) {
          resp.versionMajor := DigitValue(c);
          state := Line(ResponseHttpVersion_major);
        } else {
          return ParsingError;
        }
      case ResponseHttpVersion_major =>
        if c == '.' {
          state := Line(ResponseHttpVersion_minorStart);
        } else if IsDigit(c) {
          resp.versionMajor := resp.versionMajor * 10 + DigitValue(c);
        } else {
          return ParsingError;
        }
      case ResponseHttpVersion_minorStart =>
        if IsDigit(c) {
          resp.versionMinor := DigitValue(c);
          state := Line(ResponseHttpVersion_minor);
        } else {
          return ParsingError;
        }
      case ResponseHttpVersion_minor =>
        if c == ' ' {
          state := Line(ResponseHttpVersion_statusCodeStart);
          resp.statusCode := 0;
        } else if IsDigit(c) {
          resp.versionMinor := resp.versionMinor * 10 + DigitValue(c);
        } else {
          return ParsingError;
        }
      case ResponseHttpVersion_statusCodeStart =>
        if IsDigit(c) {
          resp.statusCode := DigitValue(c);
          state := Line(ResponseHttpVersion_statusCode);
        } else {
          return ParsingError;
        }
      case ResponseHttpVersion_statusCode =>
        if IsDigit(c) {
          resp.statusCode := resp.statusCode * 10 + DigitValue(c);
        } else if resp.statusCode < 100 || resp.statusCode > 999 {
          return ParsingError;
        } else if c == ' ' {
          state := Line(ResponseHttpVersion_statusTextStart);
        } else {
          return ParsingError;
        }
      case ResponseHttpVersion_statusTextStart =>
        if IsChar(c) {
          resp.status := resp.status + [c];
          state := Line(ResponseHttpVersion_statusText);
        } else {
          return ParsingError;
        }
      case ResponseHttpVersion_statusText =>
        if c == '\r' {
          state := Line(ResponseHttpVersion_newLine);
        } else if IsChar(c) {
          resp.status := resp.status + [c];
        } else {
          return ParsingError;
        }
      case ResponseHttpVersion_newLine =>
        if c == '\n' { state := Block(HeaderLineStart); } else { return ParsingError; }
    }

    method BlockByte(resp: ResponseObject, c: char) returns (result: ParseResult)
      requires state.Block? && View(resp).Ok()
      modifies this, resp
      ensures Outcome(result, View(resp)) == BlockStep(old(View(resp)), c)
    {
      result := ParsingIncomplete;
      match state.block
      case HeaderLineStart =>
        if c == '\r' {
          state := Block(ExpectingNewline_3);
        } else if |resp.headers| > 0 && (c == ' ' || c == '\t') {
          state := Block(HeaderLws);
        } else if !IsChar(c) || IsControl(c) || IsSpecial(c) {
          return ParsingError;
        } else {
          resp.headers := resp.headers + [HeaderItem([c], "")];
          state := Block(HeaderName);
        }
      case HeaderLws =>
        if c == '\r' {
          state := Block(ExpectingNewline_2);
        } else if c == ' ' || c == '\t' {
        } else if IsControl(c) {
          return ParsingError;
        } else {
          state := Block(HeaderValue);
          resp.headers := AppendToValue(resp.headers, c);
        }
      case HeaderName =>
        if c == ':' {
          state := Block(SpaceBeforeHeaderValue);
        } else if !IsChar(c) || IsControl(c) || IsSpecial(c) {
          return ParsingError;
        } else {
          resp.headers := AppendToName(resp.headers, c);
        }
      case SpaceBeforeHeaderValue =>
        if c == ' ' { state := Block(HeaderValue); } else { return ParsingError; }
      case HeaderValue =>
        if c == '\r' {
          var h := resp.headers[|resp.headers| - 1];
          if EqualsIgnoreCase(h.name, "Content-Length") {
            contentSize := ToSize(Atoi(h.value));
            if contentSize > MAX_SIZE { return Thrown; }
          } else if EqualsIgnoreCase(h.name, "Transfer-Encoding") {
            if EqualsIgnoreCase(h.value, "chunked") {
              chunked := true;
            }
          }
          state := Block(ExpectingNewline_2);
        } else if IsControl(c) {
          return ParsingError;
        } else {
          resp.headers := AppendToValue(resp.headers, c);
        }
      case ExpectingNewline_2 =>
        if c == '\n' { state := Block(HeaderLineStart); } else { return ParsingError; }
      case ExpectingNewline_3 =>
        var it := FindConnection(resp.headers);
        if it < |resp.headers| {
          resp.keepAlive := EqualsIgnoreCase(resp.headers[it].value, "Keep-Alive");
        } else if resp.versionMajor > 1 || (resp.versionMajor == 1 && resp.versionMinor == 1) {
          resp.keepAlive := true;
        }
        if chunked {
          state := Body(ChunkSize);
        } else if contentSize == 0 {
          if c == '\n' { return ParsingCompleted; } else { return ParsingError; }
        } else {
          state := Body(Post);
        }
    }

    method BodyByte(resp: ResponseObject, c: char) returns (result: ParseResult)
      requires state.Body?
      modifies this, resp
      ensures Outcome(result, View(resp)) == BodyStep(old(View(resp)), c)
    {
      result := ParsingIncomplete;
      match state.body
      case Post =>
        contentSize := Decrement(contentSize);
        resp.content := resp.content + [c];
        if contentSize == 0 { return ParsingCompleted; }
      case ChunkSize =>
        if IsAlnum(c) {
          chunkSizeStr := chunkSizeStr + [c];
        } else if c == ';' {
          state := Body(ChunkExtensionName);
        } else if c == '\r' {
          state := Body(ChunkSizeNewLine);
        } else {
          return ParsingError;
        }
      case ChunkExtensionName =>
        if IsAlnum(c) || c == ' ' {
        } else if c == '=' {
          state := Body(ChunkExtensionValue);
        } else if c == '\r' {
          state := Body(ChunkSizeNewLine);
        } else {
          return ParsingError;
        }
      case ChunkExtensionValue =>
        if IsAlnum(c) || c == ' ' {
        } else if c == '\r' {
          state := Body(ChunkSizeNewLine);
        } else {
          return ParsingError;
        }
      case ChunkSizeNewLine =>
        if c == '\n' {
          chunkSize := ChunkLength(chunkSizeStr);
          chunkSizeStr := "";
          if |resp.content| + chunkSize > MAX_SIZE { return Thrown; }
          if chunkSize == 0 {
            state := Body(ChunkSizeNewLine_2);
          } else {
            state := Body(ChunkData);
          }
        } else {
          return ParsingError;
        }
      case ChunkSizeNewLine_2 =>
        if c == '\r' {
          state := Body(ChunkSizeNewLine_3);
        } else if IsAlpha(c) {
          state := Body(ChunkTrailerName);
        } else {
          return ParsingError;
        }
      case ChunkSizeNewLine_3 =>
        if c == '\n' { return ParsingCompleted; } else { return ParsingError; }
      case ChunkTrailerName =>
        if IsAlnum(c) {
        } else if c == ':' {
          state := Body(ChunkTrailerValue);
        } else {
          return ParsingError;
        }
      case ChunkTrailerValue =>
        if IsAlnum(c) || c == ' ' {
        } else if c == '\r' {
          state := Body(ChunkSizeNewLine);
        } else {
          return ParsingError;
        }
      case ChunkData =>
        resp.content := resp.content + [c];
        chunkSize := Decrement(chunkSize);
        if chunkSize == 0 { state := Body(ChunkDataNewLine_1); }
      case ChunkDataNewLine_1 =>
        if c == '\r' { state := Body(ChunkDataNewLine_2); } else { return ParsingError; }
      case ChunkDataNewLine_2 =>
        if c == '\n' { state := Body(ChunkSize); } else { return ParsingError; }
    }
  }
}
