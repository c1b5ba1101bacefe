/** The incremental request parser: `HttpRequestParser` over a `Request`, one byte at a time.
    `Step` and `Consume` specify it on values; the class below does the work in place. */
module HttpRequestParser {
  import opened Ascii
  import opened HttpCommon

  datatype LineState =
    | RequestMethodStart | RequestMethod | RequestUriStart | RequestUri | RequestHttpVersion_h
    | RequestHttpVersion_ht | RequestHttpVersion_htt | RequestHttpVersion_http | RequestHttpVersion_slash
    | RequestHttpVersion_majorStart | RequestHttpVersion_major | RequestHttpVersion_minorStart
    | RequestHttpVersion_minor | ResponseHttpVersion_newLine

  datatype BlockState =
    | HeaderLineStart | HeaderLws | HeaderName | SpaceBeforeHeaderValue | HeaderValue | ExpectingNewline_2
    | ExpectingNewline_3

  datatype BodyState =
    | Post | ChunkSize | ChunkExtensionName | ChunkExtensionValue | ChunkSizeNewLine | ChunkSizeNewLine_2
    | ChunkSizeNewLine_3 | ChunkTrailerName | ChunkTrailerValue | ChunkDataNewLine_1 | ChunkDataNewLine_2
    | ChunkData

  datatype State = Line(line: LineState) | Block(block: BlockState) | Body(body: BodyState)

  datatype Request = Request(verb: string, uri: string, versionMajor: nat, versionMinor: nat,
                             headers: seq<HeaderItem>, content: string, keepAlive: bool)

  const EMPTY_REQUEST := Request("", "", 0, 0, [], "", false)

  datatype Machine = Machine(state: State, contentSize: nat, chunkSizeStr: string, chunkSize: nat,
                             chunked: bool, req: Request)
  {
    /** `headers.back()` exists wherever the parser uses it. */
    predicate Ok() {
      state in {Block(HeaderLws), Block(HeaderName), Block(SpaceBeforeHeaderValue), Block(HeaderValue)} ==> req.headers != []
    }
  }

  const FRESH := Machine(Line(RequestMethodStart), 0, "", 0, false, EMPTY_REQUEST)

  datatype Outcome = Outcome(result: ParseResult, m: Machine)

  function More(m: Machine): Outcome { Outcome(ParsingIncomplete, m) }

  function Fail(m: Machine): Outcome { Outcome(ParsingError, m) }

  predicate HasBody(verb: string) { verb == "POST" || verb == "PUT" }

  function LineStep(m: Machine, c: char): (o: Outcome)
    requires m.state.Line?
    ensures o.m.Ok()
  {
    var r := m.req;
    match m.state.line
    case RequestMethodStart =>
      if IsToken(c) then More(m.(state := Line(RequestMethod), req := r.(verb := r.verb + [c]))) else Fail(m)
    case RequestMethod =>
      if c == ' ' then More(m.(state := Line(RequestUriStart)))
      else if IsToken(c) then More(m.(req := r.(verb := r.verb + [c])))
      else Fail(m)
    case RequestUriStart =>
      if IsControl(c) then Fail(m) else More(m.(state := Line(RequestUri), req := r.(uri := r.uri + [c])))
    case RequestUri =>
      if c == ' ' then More(m.(state := Line(RequestHttpVersion_h)))
      else if c == '\r' then Outcome(ParsingCompleted, m.(req := r.(versionMajor := 0, versionMinor := 9)))
      else if IsControl(c) then Fail(m)
      else More(m.(req := r.(uri := r.uri + [c])))
    case RequestHttpVersion_h => if c == 'H' then More(m.(state := Line(RequestHttpVersion_ht))) else Fail(m)
    case RequestHttpVersion_ht => if c == 'T' then More(m.(state := Line(RequestHttpVersion_htt))) else Fail(m)
    case RequestHttpVersion_htt => if c == 'T' then More(m.(state := Line(RequestHttpVersion_http))) else Fail(m)
    case RequestHttpVersion_http => if c == 'P' then More(m.(state := Line(RequestHttpVersion_slash))) else Fail(m)
    case RequestHttpVersion_slash =>
      if c == '/' then More(m.(state := Line(RequestHttpVersion_majorStart), req := r.(versionMajor := 0, versionMinor := 0)))
      else Fail(m)
    case RequestHttpVersion_majorStart =>
      if IsDigit(c) then More(m.(state := Line(RequestHttpVersion_major), req := r.(versionMajor := DigitValue(c))))
      else Fail(m)
    case RequestHttpVersion_major =>
      if c == '.' then More(m.(state := Line(RequestHttpVersion_minorStart)))
      else if IsDigit(c) then More(m.(req := r.(versionMajor := r.versionMajor * 10 + DigitValue(c))))
      else Fail(m)
    case RequestHttpVersion_minorStart =>
      if IsDigit(c) then More(m.(state := Line(RequestHttpVersion_minor), req := r.(versionMinor := DigitValue(c))))
      else Fail(m)
    case RequestHttpVersion_minor =>
      if c == '\r' then More(m.(state := Line(ResponseHttpVersion_newLine)))
      else if IsDigit(c) then More(m.(req := r.(versionMinor := r.versionMinor * 10 + DigitValue(c))))
      else Fail(m)
    case ResponseHttpVersion_newLine => if c == '\n' then More(m.(state := Block(HeaderLineStart))) else Fail(m)
  }

  /** The effect of the CR that ends a header value. */
  function EndOfValue(m: Machine): Outcome
    requires m.req.headers != []
  {
    var h := Last(m.req.headers);
    var next := m.(state := Block(ExpectingNewline_2));
    if !HasBody(m.req.verb) then More(next)
    else if IsContentLength(h) then
      var n := ToSize(Atoi(h.value));
      if n > MAX_SIZE then Outcome(Thrown, m.(contentSize := n)) else More(next.(contentSize := n))
    else More(next.(chunked := m.chunked || IsChunked(h)))
  }

  function BlockStep(m: Machine, c: char): (o: Outcome)
    requires m.state.Block? && m.Ok()
    ensures o.m.Ok()
  {
    var r := m.req;
    match m.state.block
    case HeaderLineStart =>
      if c == '\r' then More(m.(state := Block(ExpectingNewline_3)))
      else if r.headers != [] && (c == ' ' || c == '\t') then More(m.(state := Block(HeaderLws)))
      else if IsToken(c) then More(m.(state := Block(HeaderName), req := r.(headers := r.headers + [HeaderItem([c], "")])))
      else Fail(m)
    case HeaderLws =>
      if c == '\r' then More(m.(state := Block(ExpectingNewline_2)))
      else if c == ' ' || c == '\t' then More(m)
      else if IsControl(c) then Fail(m)
      else More(m.(state := Block(HeaderValue), req := r.(headers := AppendToValue(r.headers, c))))
    case HeaderName =>
      if c == ':' then More(m.(state := Block(SpaceBeforeHeaderValue)))
      else if IsToken(c) then More(m.(req := r.(headers := AppendToName(r.headers, c))))
      else Fail(m)
    case SpaceBeforeHeaderValue => if c == ' ' then More(m.(state := Block(HeaderValue))) else Fail(m)
    case HeaderValue =>
      if c == '\r' then EndOfValue(m)
      else if IsControl(c) then Fail(m)
      else More(m.(req := r.(headers := AppendToValue(r.headers, c))))
    case ExpectingNewline_2 => if c == '\n' then More(m.(state := Block(HeaderLineStart))) else Fail(m)
    case ExpectingNewline_3 =>
      var n := m.(req := r.(keepAlive := KeepAlive(r.headers, r.versionMajor, r.versionMinor, r.keepAlive)));
      if m.chunked then More(n.(state := Body(ChunkSize)))
      else if m.contentSize == 0 then Outcome(if c == '\n' then ParsingCompleted else ParsingError, n)
      else More(n.(state := Body(Post)))
  }

  function BodyStep(m: Machine, c: char): (o: Outcome)
    requires m.state.Body?
    ensures o.m.Ok()
  {
    var r := m.req;
    match m.state.body
    case Post =>
      var n := m.(contentSize := Decrement(m.contentSize), req := r.(content := r.content + [c]));
      Outcome(if n.contentSize == 0 then ParsingCompleted else ParsingIncomplete, n)
    case ChunkSize =>
      if IsAlnum(c) then More(m.(chunkSizeStr := m.chunkSizeStr + [c]))
      else if c == ';' then More(m.(state := Body(ChunkExtensionName)))
      else if c == '\r' then More(m.(state := Body(ChunkSizeNewLine)))
      else Fail(m)
    case ChunkExtensionName =>
      if IsAlnum(c) || c == ' ' then More(m)
      else if c == '=' then More(m.(state := Body(ChunkExtensionValue)))
      else if c == '\r' then More(m.(state := Body(ChunkSizeNewLine)))
      else Fail(m)
    case ChunkExtensionValue =>
      if IsAlnum(c) || c == ' ' then More(m)
      else if c == '\r' then More(m.(state := Body(ChunkSizeNewLine)))
      else Fail(m)
    case ChunkSizeNewLine =>
      if c != '\n' then Fail(m)
      else
        var size := ChunkLength(m.chunkSizeStr);
        var n := m.(chunkSize := size, chunkSizeStr := "");
        if |r.content| + size > MAX_SIZE then Outcome(Thrown, n)
        else More(n.(state := if size == 0 then Body(ChunkSizeNewLine_2) else Body(ChunkData)))
    case ChunkSizeNewLine_2 =>
      if c == '\r' then More(m.(state := Body(ChunkSizeNewLine_3)))
      else if IsAlpha(c) then More(m.(state := Body(ChunkTrailerName)))
      else Fail(m)
    case ChunkSizeNewLine_3 => Outcome(if c == '\n' then ParsingCompleted else ParsingError, m)
    case ChunkTrailerName =>
      if IsAlnum(c) then More(m) else if c == ':' then More(m.(state := Body(ChunkTrailerValue))) else Fail(m)
    case ChunkTrailerValue =>
      if IsAlnum(c) || c == ' ' then More(m)
      else if c == '\r' then More(m.(state := Body(ChunkSizeNewLine)))
      else Fail(m)
    case ChunkDataNewLine_1 => if c == '\r' then More(m.(state := Body(ChunkDataNewLine_2))) else Fail(m)
    case ChunkDataNewLine_2 => if c == '\n' then More(m.(state := Body(ChunkSize))) else Fail(m)
    case ChunkData =>
      var n := m.(chunkSize := Decrement(m.chunkSize), req := r.(content := r.content + [c]));
      More(n.(state := if n.chunkSize == 0 then Body(ChunkDataNewLine_1) else Body(ChunkData)))
  }

  function Step(m: Machine, c: char): (o: Outcome)
    requires m.Ok()
    ensures o.m.Ok()
  {
    hide LineStep, BlockStep, BodyStep;
    if m.state.Line? then LineStep(m, c)
    else if m.state.Block? then BlockStep(m, c)
    else BodyStep(m, c)
  }

  /** One call on `input`: stops at the first result other than Incomplete. */
  function Consume(m: Machine, input: string): (o: Outcome)
    requires m.Ok()
    ensures o.m.Ok()
    decreases |input|
  {
    if input == "" then More(m)
    else
      var o := Step(m, input[0]);
      if o.result.ParsingIncomplete? then Consume(o.m, input[1..]) else o
  }

  /** How many bytes of `input` that call looks at. */
  function Consumed(m: Machine, input: string): (k: nat)
    requires m.Ok()
    ensures k <= |input|
    decreases |input|
  {
    if input == "" then 0
    else
      var o := Step(m, input[0]);
      if o.result.ParsingIncomplete? then 1 + Consumed(o.m, input[1..]) else 1
  }

  class RequestObject {
    var verb: string
    var uri: string
    var versionMajor: nat
    var versionMinor: nat
    var headers: seq<HeaderItem>
    var content: string
    var keepAlive: bool

    function Value(): Request reads this {
      Request(verb, uri, versionMajor, versionMinor, headers, content, keepAlive)
    }

    constructor ()
      ensures Value() == EMPTY_REQUEST
    {
      verb, uri, versionMajor, versionMinor := "", "", 0, 0;
      headers, content, keepAlive := [], "", false;
    }
  }

  class Parser {
    var state: State
    var contentSize: nat
    var chunkSizeStr: string
    var chunkSize: nat
    var chunked: bool

    function View(req: RequestObject): Machine reads this, req {
      Machine(state, contentSize, chunkSizeStr, chunkSize, chunked, req.Value())
    }

    constructor ()
      ensures forall req: RequestObject | req.Value() == EMPTY_REQUEST :: View(req) == FRESH
    {
      state, contentSize, chunkSizeStr, chunkSize, chunked := Line(RequestMethodStart), 0, "", 0, false;
    }

    method Parse(req: RequestObject, input: string) returns (result: ParseResult)
      requires View(req).Ok()
      modifies this, req
      ensures View(req).Ok()
      ensures Outcome(result, View(req)) == Consume(old(View(req)), input)
    {
      var i := 0;
      while i < |input|
        invariant i <= |input| && View(req).Ok()
        invariant Consume(View(req), input[i..]) == Consume(old(View(req)), input)
      {
        var c := input[i];
        assert input[i..][1..] == input[i + 1..];
        i := i + 1;
        if state.Line? {
          result := LineByte(req, c);
        } else if state.Block? {
          result := BlockByte(req, c);
        } else {
          result := BodyByte(req, c);
        }
        if result != ParsingIncomplete { return; }
      }
      result := ParsingIncomplete;
    }

    method LineByte(req: RequestObject, c: char) returns (result: ParseResult)
      requires state.Line?
      modifies this, req
      ensures Outcome(result, View(req)) == LineStep(old(View(req)), c)
    {
      result := ParsingIncomplete;
      match state.line
      case RequestMethodStart =>
        if !IsChar(c) || IsControl(c) || IsSpecial(c) {
          return ParsingError;
        } else {
          state := Line(RequestMethod);
          req.verb := req.verb + [c];
        }
      case RequestMethod =>
        if c == ' ' {
          state := Line(RequestUriStart);
        } else if !IsChar(c) || IsControl(c) || IsSpecial(c) {
          return ParsingError;
        } else {
          req.verb := req.verb + [c];
        }
      case RequestUriStart =>
        if IsControl(c) {
          return ParsingError;
        } else {
          state := Line(RequestUri);
          req.uri := req.uri + [c];
        }
      case RequestUri =>
        if c == ' ' {
          state := Line(RequestHttpVersion_h);
        } else if c == '\r' {
          req.versionMajor := 0;
          req.versionMinor := 9;
          return ParsingCompleted;
        } else if IsControl(c) {
          return ParsingError;
        } else {
          req.uri := req.uri + [c];
        }
      case RequestHttpVersion_h =>
        if c == 'H' { state := Line(RequestHttpVersion_ht); } else { return ParsingError; }
      case RequestHttpVersion_ht =>
        if c == 'T' { state := Line(RequestHttpVersion_htt); } else { return ParsingError; }
      case RequestHttpVersion_htt =>
        if c == 'T' { state := Line(RequestHttpVersion_http); } else { return ParsingError; }
      case RequestHttpVersion_http =>
        if c == 'P' { state := Line(RequestHttpVersion_slash); } else { return ParsingError; }
      case RequestHttpVersion_slash =>
        if c == '/' {
          req.versionMajor := 0;
          req.versionMinor := 0;
          state := Line(RequestHttpVersion_majorStart);
        } else {
          return ParsingError;
        }
      case RequestHttpVersion_majorStart =>
        if IsDigit(c) {
          req.versionMajor := DigitValue(c);
          state := Line(RequestHttpVersion_major);
        } else {
          return ParsingError;
        }
      case RequestHttpVersion_major =>
        if c == '.' {
          state := Line(RequestHttpVersion_minorStart);
        } else if IsDigit(c) {
          req.versionMajor := req.versionMajor * 10 + DigitValue(c);
        } else {
          return ParsingError;
        }
      case RequestHttpVersion_minorStart =>
        if IsDigit(c) {
          req.versionMinor := DigitValue(c);
          state := Line(RequestHttpVersion_minor);
        } else {
          return ParsingError;
        }
      case RequestHttpVersion_minor =>
        if c == '\r' {
          state := Line(ResponseHttpVersion_newLine);
        } else if IsDigit(c) {
          req.versionMinor := req.versionMinor * 10 + DigitValue(c);
        } else {
          return ParsingError;
        }
      case ResponseHttpVersion_newLine =>
        if c == '\n' { state := Block(HeaderLineStart); } else { return ParsingError; }
    }

    method BlockByte(req: RequestObject, c: char) returns (result: ParseResult)
      requires state.Block? && View(req).Ok()
      modifies this, req
      ensures Outcome(result, View(req)) == BlockStep(old(View(req)), c)
    {
      result := ParsingIncomplete;
      match state.block
      case HeaderLineStart =>
        if c == '\r' {
          state := Block(ExpectingNewline_3);
        } else if |req.headers| > 0 && (c == ' ' || c == '\t') {
          state := Block(HeaderLws);
        } else if !IsChar(c) || IsControl(c) || IsSpecial(c) {
          return ParsingError;
        } else {
          req.headers := req.headers + [HeaderItem([c], "")];
          state := Block(HeaderName);
        }
      case HeaderLws =>
        if c == '\r' {
          state := Block(ExpectingNewline_2);
        } else if c == ' ' || c == '\t' {
        } else if IsControl(c) {
          return ParsingError;
        } else {
          state := Block(HeaderValue);
          req.headers := AppendToValue(req.headers, c);
        }
      case HeaderName =>
        if c == ':' {
          state := Block(SpaceBeforeHeaderValue);
        } else if !IsChar(c) || IsControl(c) || IsSpecial(c) {
          return ParsingError;
        } else {
          req.headers := AppendToName(req.headers, c);
        }
      case SpaceBeforeHeaderValue =>
        if c == ' ' { state := Block(HeaderValue); } else { return ParsingError; }
      case HeaderValue =>
        if c == '\r' {
          if req.verb == "POST" || req.verb == "PUT" {
            var h := req.headers[|req.headers| - 1];
            if EqualsIgnoreCase(h.name, "Content-Length") {
              contentSize := ToSize(Atoi(h.value));
              if contentSize > MAX_SIZE { return Thrown; }
            } else if EqualsIgnoreCase(h.name, "Transfer-Encoding") {
              if EqualsIgnoreCase(h.value, "chunked") {
                chunked := true;
              }
            }
          }
          state := Block(ExpectingNewline_2);
        } else if IsControl(c) {
          return ParsingError;
        } else {
          req.headers := AppendToValue(req.headers, c);
        }
      case ExpectingNewline_2 =>
        if c == '\n' { state := Block(HeaderLineStart); } else { return ParsingError; }
      case ExpectingNewline_3 =>
        var it := FindConnection(req.headers);
        if it < |req.headers| {
          req.keepAlive := EqualsIgnoreCase(req.headers[it].value, "Keep-Alive");
        } else if req.versionMajor > 1 || (req.versionMajor == 1 && req.versionMinor == 1) {
          req.keepAlive := true;
        }
        if chunked {
          state := Body(ChunkSize);
        } else if contentSize == 0 {
          if c == '\n' { return ParsingCompleted; } else { return ParsingError; }
        } else {
          state := Body(Post);
        }
    }

    method BodyByte(req: RequestObject, c: char) returns (result: ParseResult)
      requires state.Body?
      modifies this, req
      ensures Outcome(result, View(req)) == BodyStep(old(View(req)), c)
    {
      result := ParsingIncomplete;
      match state.body
      case Post =>
        contentSize := Decrement(contentSize);
        req.content := req.content + [c];
        if contentSize == 0 { return ParsingCompleted; }
      case ChunkSize =>
        if IsAlnum(c) {
          chunkSizeStr := chunkSizeStr + [c];
        } else if c == ';' {
          state := Body(ChunkExtensionName);
        } else if c == '\r' {
          state := Body(ChunkSizeNewLine);
        } else {
          return ParsingError;
        }
      case ChunkExtensionName =>
        if IsAlnum(c) || c == ' ' {
        } else if c == '=' {
          state := Body(ChunkExtensionValue);
        } else if c == '\r' {
          state := Body(ChunkSizeNewLine);
        } else {
          return ParsingError;
        }
      case ChunkExtensionValue =>
        if IsAlnum(c) || c == ' ' {
        } else if c == '\r' {
          state := Body(ChunkSizeNewLine);
        } else {
          return ParsingError;
        }
      case ChunkSizeNewLine =>
        if c == '\n' {
          chunkSize := ChunkLength(chunkSizeStr);
          chunkSizeStr := "";
          if |req.content| + chunkSize > MAX_SIZE { return Thrown; }
          if chunkSize == 0 {
            state := Body(ChunkSizeNewLine_2);
          } else {
            state := Body(ChunkData);
          }
        } else {
          return ParsingError;
        }
      case ChunkSizeNewLine_2 =>
        if c == '\r' {
          state := Body(ChunkSizeNewLine_3);
        } else if IsAlpha(c) {
          state := Body(ChunkTrailerName);
        } else {
          return ParsingError;
        }
      case ChunkSizeNewLine_3 =>
        if c == '\n' { return ParsingCompleted; } else { return ParsingError; }
      case ChunkTrailerName =>
        if IsAlnum(c) {
        } else if c == ':' {
          state := Body(ChunkTrailerValue);
        } else {
          return ParsingError;
        }
      case ChunkTrailerValue =>
        if IsAlnum(c) || c == ' ' {
        } else if c == '\r' {
          state := Body(ChunkSizeNewLine);
        } else {
          return ParsingError;
        }
      case ChunkData =>
        req.content := req.content + [c];
        chunkSize := Decrement(chunkSize);
        if chunkSize == 0 { state := Body(ChunkDataNewLine_1); }
      case ChunkDataNewLine_1 =>
        if c == '\r' { state := Body(ChunkDataNewLine_2); } else { return ParsingError; }
      case ChunkDataNewLine_2 =>
        if c == '\n' { state := Body(ChunkSize); } else { return ParsingError; }
    }
  }
}
