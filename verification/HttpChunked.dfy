/** The chunked transfer coding (section 4.1 of RFC 7230) as the request parser reads it: the bodies it
    accepts are exactly the encodings below, and its content is the concatenation of their chunks. */
module HttpChunked {
  import opened Ascii
  import opened HttpCommon
  import opened HttpRequestParser
  import opened HttpRequestRuns
  import opened HttpRequestRoundTrip

  datatype Extension = NoExtension | Named(name: string) | Valued(name: string, value: string)

  datatype SizeLine = SizeLine(hex: string, ext: Extension)

  datatype Chunk = Chunk(size: SizeLine, data: string)

  datatype Trailer = Trailer(name: string, value: string)

  datatype ChunkedBody = ChunkedBody(chunks: seq<Chunk>, last: SizeLine, trailers: seq<Trailer>)

  predicate IsBlankAlnum(c: char) { IsAlnum(c) || c == ' ' }

  // ---------- The encoding ----------

  function ExtensionText(e: Extension): string {
    match e
    case NoExtension => ""
    case Named(n) => ";" + n
    case Valued(n, v) => ";" + n + "=" + v
  }

  function SizeText(s: SizeLine): string { s.hex + ExtensionText(s.ext) + "\r" + "\n" }

  function ChunkText(c: Chunk): string { SizeText(c.size) + c.data + "\r" + "\n" }

  function ChunksText(chunks: seq<Chunk>): string {
    if chunks == [] then "" else ChunkText(chunks[0]) + ChunksText(chunks[1..])
  }

  function TrailerText(t: Trailer): string { t.name + ":" + t.value + "\r" + "\n" }

  function TrailersText(trailers: seq<Trailer>): string {
    if trailers == [] then "" else TrailerText(trailers[0]) + TrailersText(trailers[1..])
  }

  function Encode(b: ChunkedBody): string {
    ChunksText(b.chunks) + (SizeText(b.last) + (TrailersText(b.trailers) + "\r\n"))
  }

  /** The payload: the chunks put together. */
  function Payload(chunks: seq<Chunk>): string {
    if chunks == [] then "" else chunks[0].data + Payload(chunks[1..])
  }

  ghost predicate GoodExtension(e: Extension) {
    match e
    case NoExtension => true
    case Named(n) => All(IsBlankAlnum, n)
    case Valued(n, v) => All(IsBlankAlnum, n) && All(IsBlankAlnum, v)
  }

  ghost predicate GoodSize(s: SizeLine) { All(IsAlnum, s.hex) && GoodExtension(s.ext) }

  ghost predicate GoodChunk(c: Chunk) { GoodSize(c.size) && ChunkLength(c.size.hex) == |c.data| > 0 }

  ghost predicate GoodTrailer(t: Trailer) {
    t.name != "" && IsAlpha(t.name[0]) && All(IsAlnum, t.name) && All(IsBlankAlnum, t.value)
  }

  ghost predicate Good(b: ChunkedBody) {
    && (forall c | c in b.chunks :: GoodChunk(c))
    && GoodSize(b.last) && ChunkLength(b.last.hex) == 0
    && (forall t | t in b.trailers :: GoodTrailer(t))
  }

  // ---------- Every encoding is decoded ----------

  lemma Compose(m: Machine, a: string, n: Machine, b: string, p: Machine)
    requires Reaches(m, a, n) && Reaches(n, b, p)
    ensures Reaches(m, a + b, p)
  {
    ConsumeAppend(m, a, b);
  }

  lemma {:induction false} HexRun(m: Machine, hex: string)
    requires m.state == Body(ChunkSize) && All(IsAlnum, hex)
    ensures Reaches(m, hex, m.(chunkSizeStr := m.chunkSizeStr + hex))
  {
    if hex == "" {
      AppendEmpty(m.chunkSizeStr);
    } else {
      var k := |hex| - 1;
      assert hex == hex[..k] + [hex[k]];
      HexRun(m, hex[..k]);
      Snoc(m.chunkSizeStr, hex[..k], hex[k]);
      ThenByte(m, hex[..k], m.(chunkSizeStr := m.chunkSizeStr + hex[..k]), hex[k]);
    }
  }

  predicate Skips(s: BodyState, c: char) {
    match s
    case ChunkTrailerName => IsAlnum(c)
    case _ => (s.ChunkExtensionName? || s.ChunkExtensionValue? || s.ChunkTrailerValue?) && IsBlankAlnum(c)
  }

  lemma {:induction false} SkipRun(m: Machine, s: string)
    requires m.state.Body? && forall i | 0 <= i < |s| :: Skips(m.state.body, s[i])
    ensures Reaches(m, s, m)
    decreases |s|
  {
    if s != "" { SkipRun(m, s[1..]); }
  }

  /** `m` after the LF that ends the size line `hex`. */
  function AfterSize(m: Machine, hex: string): Machine {
    m.(state := Body(if ChunkLength(hex) == 0 then ChunkSizeNewLine_2 else ChunkData),
       chunkSize := ChunkLength(hex), chunkSizeStr := "")
  }

  lemma ExtensionRun(m: Machine, e: Extension)
    requires m.state == Body(ChunkSize) && GoodExtension(e)
    ensures Reaches(m, ExtensionText(e) + "\r", m.(state := Body(ChunkSizeNewLine)))
  {
    hide Consume, ChunkLength;
    var n, v := m.(state := Body(ChunkExtensionName)), m.(state := Body(ChunkExtensionValue));
    Nothing(m);
    match e
    case NoExtension => ThenByte(m, "", m, '\r');
    case Named(name) =>
      ThenByte(m, "", m, ';');
      SkipRun(n, name);
      Compose(m, ";", n, name, n);
      ThenByte(m, ";" + name, n, '\r');
    case Valued(name, value) =>
      ThenByte(m, "", m, ';');
      SkipRun(n, name);
      Compose(m, ";", n, name, n);
      ThenByte(m, ";" + name, n, '=');
      SkipRun(v, value);
      Compose(m, ";" + name + "=", v, value, v);
      ThenByte(m, ";" + name + "=" + value, v, '\r');
  }

  lemma Nothing(m: Machine)
    requires m.Ok()
    ensures Reaches(m, "", m) && "" + ";" == ";" && "" + "\r" == "\r"
  {
  }

  lemma SizeUpToBreak(m: Machine, s: SizeLine)
    requires m.state == Body(ChunkSize) && m.chunkSizeStr == "" && GoodSize(s)
    ensures Reaches(m, s.hex + ExtensionText(s.ext) + "\r", m.(state := Body(ChunkSizeNewLine), chunkSizeStr := s.hex))
  {
    hide Consume, ChunkLength;
    HexRun(m, s.hex);
    assert m.chunkSizeStr + s.hex == s.hex;
    var n := m.(chunkSizeStr := s.hex);
    ExtensionRun(n, s.ext);
    Compose(m, s.hex, n, ExtensionText(s.ext) + "\r", n.(state := Body(ChunkSizeNewLine)));
    Snoc(s.hex, ExtensionText(s.ext), '\r');
  }

  lemma SizeRun(m: Machine, s: SizeLine)
    requires m.state == Body(ChunkSize) && m.chunkSizeStr == "" && GoodSize(s)
    requires |m.req.content| + ChunkLength(s.hex) <= MAX_SIZE
    ensures Reaches(m, SizeText(s), AfterSize(m, s.hex))
  {
    hide Consume, ChunkLength;
    SizeUpToBreak(m, s);
    ThenByte(m, s.hex + ExtensionText(s.ext) + "\r", m.(state := Body(ChunkSizeNewLine), chunkSizeStr := s.hex), '\n');
  }

  lemma {:induction false} DataRun(m: Machine, data: string)
    requires m.state == Body(ChunkData) && m.chunkSize == |data| > 0
    ensures Reaches(m, data, m.(state := Body(ChunkDataNewLine_1), chunkSize := 0,
                                req := m.req.(content := m.req.content + data)))
    decreases |data|
  {
    if |data| == 1 {
      assert data == [data[0]];
    } else {
      assert m.req.content + [data[0]] + data[1..] == m.req.content + data;
      DataRun(Step(m, data[0]).m, data[1..]);
    }
  }

  lemma ChunkRun(m: Machine, c: Chunk)
    requires m.state == Body(ChunkSize) && m.chunkSizeStr == "" && GoodChunk(c)
    requires |m.req.content| + |c.data| <= MAX_SIZE
    ensures Reaches(m, ChunkText(c), m.(chunkSize := 0, req := m.req.(content := m.req.content + c.data)))
  {
    hide Consume, ChunkLength, SizeText;
    SizeRun(m, c.size);
    var n := AfterSize(m, c.size.hex);
    DataRun(n, c.data);
    var d := n.(state := Body(ChunkDataNewLine_1), chunkSize := 0, req := n.req.(content := n.req.content + c.data));
    Compose(m, SizeText(c.size), n, c.data, d);
    ThenByte(m, SizeText(c.size) + c.data, d, '\r');
    ThenByte(m, SizeText(c.size) + c.data + "\r", d.(state := Body(ChunkDataNewLine_2)), '\n');
  }

  lemma {:induction false} ChunksRun(m: Machine, chunks: seq<Chunk>)
    requires m.state == Body(ChunkSize) && m.chunkSizeStr == "" && forall c | c in chunks :: GoodChunk(c)
    requires |m.req.content| + |Payload(chunks)| <= MAX_SIZE
    ensures Reaches(m, ChunksText(chunks),
                    m.(chunkSize := if chunks == [] then m.chunkSize else 0,
                       req := m.req.(content := m.req.content + Payload(chunks))))
    decreases |chunks|
  {
    hide ChunkText, GoodChunk, Step;
    if chunks == [] {
      AppendEmpty(m.req.content);
    } else {
      var c := chunks[0];
      ChunkRun(m, c);
      var n := m.(chunkSize := 0, req := m.req.(content := m.req.content + c.data));
      ChunksRun(n, chunks[1..]);
      assert m.req.content + c.data + Payload(chunks[1..]) == m.req.content + Payload(chunks);
      Compose(m, ChunkText(c), n, ChunksText(chunks[1..]), n.(req := m.req.(content := m.req.content + Payload(chunks))));
    }
  }

  lemma TrailerRun(m: Machine, t: Trailer)
    requires m.state == Body(ChunkSizeNewLine_2) && m.chunkSizeStr == "" && m.chunkSize == 0
    requires GoodTrailer(t) && |m.req.content| <= MAX_SIZE
    ensures Reaches(m, TrailerText(t), m)
  {
    hide Consume;
    var n, v := m.(state := Body(ChunkTrailerName)), m.(state := Body(ChunkTrailerValue));
    Nothing(m);
    ThenByte(m, "", m, t.name[0]);
    assert "" + [t.name[0]] == [t.name[0]];
    SkipRun(n, t.name[1..]);
    Compose(m, [t.name[0]], n, t.name[1..], n);
    assert [t.name[0]] + t.name[1..] == t.name;
    ThenByte(m, t.name, n, ':');
    SkipRun(v, t.value);
    Compose(m, t.name + ":", v, t.value, v);
    ThenByte(m, t.name + ":" + t.value, v, '\r');
    assert ChunkLength("") == 0;
    ThenByte(m, t.name + ":" + t.value + "\r", m.(state := Body(ChunkSizeNewLine)), '\n');
  }

  lemma {:induction false} TrailersRun(m: Machine, trailers: seq<Trailer>)
    requires m.state == Body(ChunkSizeNewLine_2) && m.chunkSizeStr == "" && m.chunkSize == 0
    requires |m.req.content| <= MAX_SIZE && forall t | t in trailers :: GoodTrailer(t)
    ensures Reaches(m, TrailersText(trailers), m)
    decreases |trailers|
  {
    hide TrailerText, GoodTrailer, Step;
    if trailers != [] {
      TrailerRun(m, trailers[0]);
      TrailersRun(m, trailers[1..]);
      Compose(m, TrailerText(trailers[0]), m, TrailersText(trailers[1..]), m);
    }
  }

  /** The machine when the body is complete. */
  function Finished(m: Machine, content: string): Machine {
    m.(state := Body(ChunkSizeNewLine_3), chunkSizeStr := "", chunkSize := 0, req := m.req.(content := m.req.content + content))
  }

  lemma Regroup(x: string, y: string, z: string, rest: string)
    ensures x + (y + z + "\r") + ("\n" + rest) == x + (y + (z + "\r\n")) + rest
  {
  }

  /** Chunked decoding inverts chunked encoding, whatever follows: spelling of the sizes, extensions,
      trailers and the way the payload was cut leave no trace. */
  lemma ChunkedDecodes(m: Machine, b: ChunkedBody, rest: string)
    requires m.state == Body(ChunkSize) && m.chunkSizeStr == "" && Good(b)
    requires |m.req.content| + |Payload(b.chunks)| <= MAX_SIZE
    ensures Consume(m, Encode(b) + rest) == Outcome(ParsingCompleted, Finished(m, Payload(b.chunks)))
    ensures Consumed(m, Encode(b) + rest) == |Encode(b)|
  {
    hide SizeText, ChunkLength, GoodChunk, GoodSize, GoodTrailer;
    ChunksRun(m, b.chunks);
    var n := m.(chunkSize := if b.chunks == [] then m.chunkSize else 0,
                req := m.req.(content := m.req.content + Payload(b.chunks)));
    SizeRun(n, b.last);
    var p := AfterSize(n, b.last.hex);
    TrailersRun(p, b.trailers);
    Compose(n, SizeText(b.last), p, TrailersText(b.trailers), p);
    ThenByte(n, SizeText(b.last) + TrailersText(b.trailers), p, '\r');
    var q := p.(state := Body(ChunkSizeNewLine_3));
    var body := SizeText(b.last) + TrailersText(b.trailers) + "\r";
    Compose(m, ChunksText(b.chunks), n, body, q);
    ConsumeAppend(m, ChunksText(b.chunks) + body, "\n" + rest);
    Regroup(ChunksText(b.chunks), SizeText(b.last), TrailersText(b.trailers), rest);
    assert ("\n" + rest)[0] == '\n';
    assert q == Finished(m, Payload(b.chunks));
  }

  // ---------- Everything decoded is an encoding ----------

  lemma {:induction false} SplitHex(m: Machine, input: string) returns (hex: string, rest: string)
    requires m.state == Body(ChunkSize) && Consume(m, input).result.ParsingCompleted?
    ensures All(IsAlnum, hex) && input == hex + rest && rest != "" && !IsAlnum(rest[0])
    ensures Consume(m, input) == Consume(m.(chunkSizeStr := m.chunkSizeStr + hex), rest)
    decreases |input|
  {
    if IsAlnum(input[0]) {
      var c := input[0];
      var tail;
      tail, rest := SplitHex(Step(m, c).m, input[1..]);
      hex := [c] + tail;
      assert m.chunkSizeStr + hex == m.chunkSizeStr + [c] + tail;
      assert input == [c] + input[1..];
    } else {
      hex, rest := "", input;
      AppendEmpty(m.chunkSizeStr);
    }
  }

  lemma {:induction false} SplitSkip(m: Machine, input: string) returns (s: string, rest: string)
    requires m.state in {Body(ChunkExtensionName), Body(ChunkExtensionValue), Body(ChunkTrailerName), Body(ChunkTrailerValue)}
    requires Consume(m, input).result.ParsingCompleted?
    ensures forall i | 0 <= i < |s| :: Skips(m.state.body, s[i])
    ensures input == s + rest && rest != "" && !Skips(m.state.body, rest[0])
    ensures Consume(m, input) == Consume(m, rest)
    decreases |input|
  {
    if Skips(m.state.body, input[0]) {
      var tail;
      tail, rest := SplitSkip(m, input[1..]);
      s := [input[0]] + tail;
      assert input == [input[0]] + input[1..];
    } else {
      s, rest := "", input;
    }
  }

  /** A parse that completes goes on from the second byte, unless it completed on the first. */
  lemma Onward(m: Machine, input: string)
    requires m.Ok() && Consume(m, input).result.ParsingCompleted?
    ensures input != "" && input == [input[0]] + input[1..]
    ensures !Step(m, input[0]).result.ParsingError? && !Step(m, input[0]).result.Thrown?
    ensures Step(m, input[0]).result.ParsingIncomplete? ==> Consume(m, input) == Consume(Step(m, input[0]).m, input[1..])
  {
    hide Step;
  }

  /** The bytes that end a size, an extension name and an extension value. */
  lemma ExtensionSteps(m: Machine, c: char)
    requires m.state in {Body(ChunkSize), Body(ChunkExtensionName), Body(ChunkExtensionValue)}
    requires if m.state == Body(ChunkSize) then !IsAlnum(c) else !IsBlankAlnum(c)
    ensures var o := Step(m, c);
            if c == '\r' then o == More(m.(state := Body(ChunkSizeNewLine)))
            else if c == ';' && m.state == Body(ChunkSize) then o == More(m.(state := Body(ChunkExtensionName)))
            else if c == '=' && m.state == Body(ChunkExtensionName) then o == More(m.(state := Body(ChunkExtensionValue)))
            else o.result.ParsingError?
  {
  }

  lemma SplitExtension(m: Machine, input: string) returns (e: Extension, rest: string)
    requires m.state == Body(ChunkSize) && Consume(m, input).result.ParsingCompleted?
    requires input != "" && !IsAlnum(input[0])
    ensures GoodExtension(e) && input == ExtensionText(e) + "\r" + rest
    ensures Consume(m, input) == Consume(m.(state := Body(ChunkSizeNewLine)), rest)
  {
    hide Consume, Step, IsAlnum;
    Onward(m, input);
    ExtensionSteps(m, input[0]);
    if input[0] == '\r' {
      e, rest := NoExtension, input[1..];
    } else {
      var n := m.(state := Body(ChunkExtensionName));
      var name, r := SplitSkip(n, input[1..]);
      Onward(n, r);
      ExtensionSteps(n, r[0]);
      if r[0] == '\r' {
        e, rest := Named(name), r[1..];
        RegroupExtension(";" + name, "", "", rest);
      } else {
        var v := m.(state := Body(ChunkExtensionValue));
        var value, t := SplitSkip(v, r[1..]);
        Onward(v, t);
        ExtensionSteps(v, t[0]);
        e, rest := Valued(name, value), t[1..];
        RegroupExtension(";" + name, "=", value, rest);
      }
    }
  }

  lemma RegroupExtension(a: string, b: string, c: string, rest: string)
    ensures a + (b + (c + ("\r" + rest))) == a + b + c + "\r" + rest
    ensures a + ("\r" + rest) == a + "\r" + rest
  {
  }

  lemma SplitSize(m: Machine, input: string) returns (s: SizeLine, rest: string)
    requires m.state == Body(ChunkSize) && m.chunkSizeStr == "" && Consume(m, input).result.ParsingCompleted?
    ensures GoodSize(s) && input == SizeText(s) + rest
    ensures |m.req.content| + ChunkLength(s.hex) <= MAX_SIZE
    ensures Consume(m, input) == Consume(AfterSize(m, s.hex), rest)
  {
    hide ChunkLength, GoodExtension, ExtensionText;
    var hex, r := SplitHex(m, input);
    assert "" + hex == hex;
    var n := m.(chunkSizeStr := hex);
    var e, t := SplitExtension(n, r);
    s, rest := SizeLine(hex, e), t[1..];
    assert t == "\n" + rest;
    SizeTextSplits(s, rest);
  }

  lemma SizeTextSplits(s: SizeLine, rest: string)
    ensures s.hex + (ExtensionText(s.ext) + "\r" + ("\n" + rest)) == SizeText(s) + rest
  {
    hide ExtensionText;
  }

  lemma {:induction false} SplitData(m: Machine, input: string) returns (data: string, rest: string)
    requires m.state == Body(ChunkData) && m.chunkSize > 0 && Consume(m, input).result.ParsingCompleted?
    ensures |data| == m.chunkSize && input == data + rest
    ensures Consume(m, input) == Consume(m.(state := Body(ChunkDataNewLine_1), chunkSize := 0,
                                            req := m.req.(content := m.req.content + data)), rest)
    decreases |input|
  {
    var c := input[0];
    assert input == [c] + input[1..];
    if m.chunkSize == 1 {
      data, rest := [c], input[1..];
    } else {
      var tail;
      tail, rest := SplitData(Step(m, c).m, input[1..]);
      data := [c] + tail;
      assert m.req.content + data == m.req.content + [c] + tail;
    }
  }

  /** The two line-break bytes after chunk data. */
  lemma SplitBreak(m: Machine, input: string) returns (rest: string)
    requires m.state == Body(ChunkDataNewLine_1) && Consume(m, input).result.ParsingCompleted?
    ensures input == "\r" + "\n" + rest && Consume(m, input) == Consume(m.(state := Body(ChunkSize)), rest)
  {
    hide ChunkLength;
    var t := input[1..];
    assert Consume(m, input) == Consume(m.(state := Body(ChunkDataNewLine_2)), t);
    rest := t[1..];
    assert t == "\n" + rest && input == "\r" + t;
  }

  lemma {:induction false} SplitTrailers(m: Machine, input: string) returns (trailers: seq<Trailer>, rest: string)
    requires m.state == Body(ChunkSizeNewLine_2) && m.chunkSizeStr == "" && m.chunkSize == 0
    requires Consume(m, input).result.ParsingCompleted?
    ensures (forall t | t in trailers :: GoodTrailer(t)) && input == TrailersText(trailers) + "\r\n" + rest
    ensures Consume(m, input) == Outcome(ParsingCompleted, m.(state := Body(ChunkSizeNewLine_3)))
    decreases |input|
  {
    if input[0] == '\r' {
      var t := input[1..];
      assert Consume(m, input) == Consume(m.(state := Body(ChunkSizeNewLine_3)), t);
      trailers, rest := [], t[1..];
      assert t == "\n" + rest && input == "\r" + t;
      assert "" + "\r\n" + rest == "\r" + ("\n" + rest);
    } else {
      var t, r := SplitTrailer(m, input);
      var ts;
      ts, rest := SplitTrailers(m, r);
      trailers := [t] + ts;
      assert trailers[1..] == ts;
      assert TrailerText(t) + (TrailersText(ts) + "\r\n" + rest) == TrailerText(t) + TrailersText(ts) + "\r\n" + rest by {
        hide TrailerText, TrailersText;
      }
    }
  }

  lemma SplitTrailer(m: Machine, input: string) returns (t: Trailer, rest: string)
    requires m.state == Body(ChunkSizeNewLine_2) && m.chunkSizeStr == "" && m.chunkSize == 0
    requires Consume(m, input).result.ParsingCompleted? && input != "" && input[0] != '\r'
    ensures GoodTrailer(t) && input == TrailerText(t) + rest && |rest| < |input|
    ensures Consume(m, input) == Consume(m, rest)
  {
    hide Consume, Step, ChunkLength;
    var c := input[0];
    var n, v := m.(state := Body(ChunkTrailerName)), m.(state := Body(ChunkTrailerValue));
    Onward(m, input);
    TrailerSteps(m, c);
    var name, r := SplitSkip(n, input[1..]);
    Onward(n, r);
    TrailerSteps(n, r[0]);
    var value, u := SplitSkip(v, r[1..]);
    Onward(v, u);
    TrailerSteps(v, u[0]);
    Onward(m.(state := Body(ChunkSizeNewLine)), u[1..]);
    TrailerSteps(m.(state := Body(ChunkSizeNewLine)), u[1..][0]);
    rest := u[1..][1..];
    t := Trailer([c] + name, value);
    RegroupTrailer([c], name, value, rest);
  }

  /** The bytes between the parts of a trailer, and the line break that leads back to the next. */
  lemma TrailerSteps(m: Machine, c: char)
    requires m.chunkSizeStr == "" && m.chunkSize == 0
    requires m.state in {Body(ChunkSizeNewLine_2), Body(ChunkTrailerName), Body(ChunkTrailerValue), Body(ChunkSizeNewLine)}
    requires !Skips(m.state.body, c)
    ensures var o := Step(m, c);
            match m.state.body
            case ChunkSizeNewLine_2 =>
              c != '\r' ==> if IsAlpha(c) then o == More(m.(state := Body(ChunkTrailerName))) else o.result.ParsingError?
            case ChunkTrailerName => if c == ':' then o == More(m.(state := Body(ChunkTrailerValue))) else o.result.ParsingError?
            case ChunkTrailerValue => if c == '\r' then o == More(m.(state := Body(ChunkSizeNewLine))) else o.result.ParsingError?
            case _ => o.result.ParsingIncomplete? || o.result.ParsingCompleted? ==>
                        c == '\n' && o == More(m.(state := Body(ChunkSizeNewLine_2)))
  {
    assert ChunkLength("") == 0;
  }

  lemma RegroupTrailer(first: string, name: string, value: string, rest: string)
    ensures first + (name + (":" + (value + ("\r" + ("\n" + rest))))) == first + name + ":" + value + "\r" + "\n" + rest
  {
  }

  lemma {:induction false} Decode(m: Machine, input: string) returns (b: ChunkedBody, rest: string)
    requires m.state == Body(ChunkSize) && m.chunkSizeStr == "" && Consume(m, input).result.ParsingCompleted?
    ensures Good(b) && |m.req.content| + |Payload(b.chunks)| <= MAX_SIZE && input == Encode(b) + rest
    decreases |input|
  {
    hide SizeText, ChunkLength, GoodSize, GoodTrailer, BodyStep, TrailersText;
    var s, r := SplitSize(m, input);
    var n := AfterSize(m, s.hex);
    if ChunkLength(s.hex) == 0 {
      var ts, t := SplitTrailers(n, r);
      b, rest := ChunkedBody([], s, ts), t;
      Regroup3("", SizeText(s), TrailersText(ts) + "\r\n", rest);
    } else {
      var data, t := SplitData(n, r);
      var d := n.(state := Body(ChunkDataNewLine_1), chunkSize := 0, req := n.req.(content := n.req.content + data));
      var u := SplitBreak(d, t);
      var c := Chunk(s, data);
      var b0;
      assert |u| < |input|;
      b0, rest := Decode(d.(state := Body(ChunkSize)), u);
      b := ChunkedBody([c] + b0.chunks, b0.last, b0.trailers);
      assert b.chunks[1..] == b0.chunks;
      Regroup4(SizeText(s), data, ChunksText(b0.chunks), SizeText(b0.last) + (TrailersText(b0.trailers) + "\r\n"), rest);
    }
  }

  lemma Regroup3(a: string, b: string, c: string, rest: string)
    ensures b + (c + rest) == "" + (b + c) + rest
  {
  }

  lemma Regroup4(size: string, data: string, chunks: string, tail: string, rest: string)
    ensures size + (data + ("\r" + "\n" + (chunks + tail + rest)))
            == size + data + "\r" + "\n" + chunks + tail + rest
  {
  }

  /** The parser completes a chunked body exactly on the encodings that fit, and its content is then
      the payload. */
  lemma AcceptsExactlyEncodings(m: Machine, input: string)
    requires m.state == Body(ChunkSize) && m.chunkSizeStr == ""
    ensures Consume(m, input).result.ParsingCompleted?
            <==> exists b, rest :: Good(b) && |m.req.content| + |Payload(b.chunks)| <= MAX_SIZE && input == Encode(b) + rest
  {
    if Consume(m, input).result.ParsingCompleted? {
      var b, rest := Decode(m, input);
    }
    forall b, rest | Good(b) && |m.req.content| + |Payload(b.chunks)| <= MAX_SIZE && input == Encode(b) + rest
      ensures Consume(m, input).result.ParsingCompleted?
    {
      ChunkedDecodes(m, b, rest);
    }
  }

  /** A whole request with a chunked body: the head as in an unchunked request, the content the payload. */
  lemma ChunkedRequestParses(r: Request, b: ChunkedBody, rest: string)
    requires GoodHead(r) && Chunked(r.verb, r.headers)
    requires Good(b) && r.content == Payload(b.chunks) && |r.content| <= MAX_SIZE
    ensures var o := Consume(FRESH, Head(r) + "\r" + "\n" + (Encode(b) + rest));
            o.result.ParsingCompleted? && o.m.req == r
  {
    hide Head, Encode, Good, Payload, KeepAlive, AnyChunked;
    HeadRun(r);
    var n := WithHeaders(AfterLine(r), r.headers);
    ThenByte(FRESH, Head(r), n, '\r');
    var e := n.(state := Block(ExpectingNewline_3));
    ThenByte(FRESH, Head(r) + "\r", e, '\n');
    ConsumeAppend(FRESH, Head(r) + "\r" + "\n", Encode(b) + rest);
    ChunkedDecodes(Step(e, '\n').m, b, rest);
    assert "" + r.content == r.content;
  }
}
