/** The grammar of the requests the parser accepts, in all their spellings: leading zeros in the version, folded
    headers, any byte behind the last CR, the short form of HTTP/0.9. What is accepted, and what it means. */
module HttpRequestGrammar {
  import opened Ascii
  import opened HttpCommon
  import opened HttpRequestParser
  import opened HttpRequestRuns
  import opened HttpRequestRoundTrip
  import opened HttpChunked

  // ---------- The grammar ----------

  /** A header, or a line that continues the one before. */
  datatype HeadLine = Field(name: string, value: string) | Fold(blanks: string, text: string)

  predicate IsBlank(c: char) { c == ' ' || c == '\t' }

  ghost predicate GoodLine(l: HeadLine) {
    match l
    case Field(name, value) => GoodToken(name) && All(IsFieldByte, value)
    case Fold(blanks, text) => blanks != "" && All(IsBlank, blanks) && All(IsFieldByte, text) && (text != "" ==> text[0] != ' ')
  }

  /** No header to continue comes before the first one. */
  ghost predicate GoodLines(lines: seq<HeadLine>) {
    (forall l | l in lines :: GoodLine(l)) && (lines != [] ==> lines[0].Field?)
  }

  function LineText(l: HeadLine): string {
    match l
    case Field(name, value) => name + ":" + " " + value + "\r" + "\n"
    case Fold(blanks, text) => blanks + text + "\r" + "\n"
  }

  function LinesText(lines: seq<HeadLine>): string {
    if lines == [] then "" else LineText(lines[0]) + LinesText(lines[1..])
  }

  // ---------- The meaning ----------

  /** The headers read so far, and the framing they announced when they were read. */
  datatype Framed = Framed(headers: seq<HeaderItem>, length: nat, chunked: bool)

  const NO_HEADERS := Framed([], 0, false)

  /** At each CR that ends a text, the last header as it then is announces the framing. */
  function Announcing(verb: string, f: Framed): Framed {
    if f.headers == [] || !HasBody(verb) then f
    else
      var h := f.headers[|f.headers| - 1];
      if IsContentLength(h) then f.(length := ToSize(Atoi(h.value))) else f.(chunked := f.chunked || IsChunked(h))
  }

  function WithLine(verb: string, f: Framed, l: HeadLine): Framed {
    match l
    case Field(name, value) => Announcing(verb, f.(headers := f.headers + [HeaderItem(name, value)]))
    case Fold(_, text) =>
      if f.headers == [] || text == "" then f
      else
        var h := f.headers[|f.headers| - 1];
        Announcing(verb, f.(headers := f.headers[..|f.headers| - 1] + [HeaderItem(h.name, h.value + text)]))
  }

  function WithLines(verb: string, f: Framed, lines: seq<HeadLine>): Framed
    decreases |lines|
  {
    if lines == [] then f else WithLines(verb, WithLine(verb, f, lines[0]), lines[1..])
  }

  /** No length announced on the way was too large to reserve. */
  ghost predicate Fit(verb: string, f: Framed, lines: seq<HeadLine>)
    decreases |lines|
  {
    lines != [] ==> WithLine(verb, f, lines[0]).length <= MAX_SIZE && Fit(verb, WithLine(verb, f, lines[0]), lines[1..])
  }

  /** What follows the start line of a request that `r` begins: header lines, CR, one byte, and the body. */
  ghost predicate TailShape(r: Request, t: string, result: Request) {
    exists lines, sep, body, rest :: IsTail(r, t, result, lines, sep, body, rest)
  }

  ghost predicate IsTail(r: Request, t: string, result: Request, lines: seq<HeadLine>, sep: char, body: string, rest: string) {
    && t == LinesText(lines) + ("\r" + ([sep] + (body + rest)))
    && GoodLines(lines) && Fit(r.verb, NO_HEADERS, lines)
    && var f := WithLines(r.verb, NO_HEADERS, lines);
       && result.headers == f.headers && result.verb == r.verb && result.uri == r.uri
       && result.versionMajor == r.versionMajor && result.versionMinor == r.versionMinor
       && result.keepAlive == KeptAlive(f.headers, r.versionMajor, r.versionMinor)
       && IsBody(f, sep, body, result.content)
  }

  /** Of a chunked body the content is the payload; without a body the byte behind the last CR is LF. */
  ghost predicate IsBody(f: Framed, sep: char, body: string, content: string) {
    if f.chunked then IsChunkedBody(body, content)
    else body == content && |body| == f.length && (body == "" ==> sep == '\n')
  }

  ghost predicate IsChunkedBody(body: string, content: string) {
    exists b :: Good(b) && body == Encode(b) && content == Payload(b.chunks) && |content| <= MAX_SIZE
  }

  ghost predicate IsNumber(digits: string, n: nat) { digits != "" && All(IsDigit, digits) && n == ReadDigits(digits, 0) }

  function VersionLine(verb: string, uri: string, major: string, minor: string): string {
    HttpSlash(Target(verb, uri)) + major + "." + minor + "\r" + "\n"
  }

  ghost predicate IsLong(input: string, r: Request, major: string, minor: string, t: string) {
    && GoodToken(r.verb) && GoodUri(r.uri) && IsNumber(major, r.versionMajor) && IsNumber(minor, r.versionMinor)
    && input == VersionLine(r.verb, r.uri, major, minor) + t && TailShape(r, t, r)
  }

  ghost predicate IsShort(input: string, r: Request, rest: string) {
    && GoodToken(r.verb) && GoodUri(r.uri) && input == Target(r.verb, r.uri) + "\r" + rest
    && r == Request(r.verb, r.uri, 0, 9, [], "", false)
  }

  /** `input` starts with a spelling of `r`. */
  ghost predicate RequestShape(input: string, r: Request) {
    || (exists rest :: IsShort(input, r, rest))
    || (exists major, minor, t :: IsLong(input, r, major, minor, t))
  }

  // ---------- States that collect bytes ----------

  predicate Collects(s: State, c: char) {
    match s
    case Line(RequestMethod) => IsToken(c)
    case Line(RequestUri) => IsUriByte(c)
    case Line(RequestHttpVersion_major) => IsDigit(c)
    case Line(RequestHttpVersion_minor) => IsDigit(c)
    case Block(HeaderName) => IsToken(c)
    case Block(HeaderValue) => IsFieldByte(c)
    case Block(HeaderLws) => IsBlank(c)
    case _ => false
  }

  lemma {:induction false} Split(m: Machine, t: string) returns (a: string, b: string)
    requires m.Ok()
    ensures t == a + b && (forall i | 0 <= i < |a| :: Collects(m.state, a[i])) && (b == "" || !Collects(m.state, b[0]))
  {
    hide Collects;
    if t == "" || !Collects(m.state, t[0]) {
      a, b := "", t;
    } else {
      var c;
      c, b := Split(m, t[1..]);
      a := [t[0]] + c;
    }
  }

  function WithLast(hs: seq<HeaderItem>, h: HeaderItem): seq<HeaderItem>
    requires hs != []
  {
    Front(hs) + [h]
  }

  /** The machine after collecting `a`. */
  function Collected(m: Machine, a: string): Machine
    requires m.Ok()
    decreases |a|
  {
    var r := m.req;
    match m.state
    case Line(RequestMethod) => m.(req := r.(verb := r.verb + a))
    case Line(RequestUri) => m.(req := r.(uri := r.uri + a))
    case Line(RequestHttpVersion_major) => m.(req := r.(versionMajor := ReadDigits(a, r.versionMajor)))
    case Line(RequestHttpVersion_minor) => m.(req := r.(versionMinor := ReadDigits(a, r.versionMinor)))
    case Block(HeaderName) => m.(req := r.(headers := WithLast(r.headers, HeaderItem(Last(r.headers).name + a, Last(r.headers).value))))
    case Block(HeaderValue) => m.(req := r.(headers := WithLast(r.headers, HeaderItem(Last(r.headers).name, Last(r.headers).value + a))))
    case _ => m
  }

  lemma CollectOne(m: Machine, c: char, a: string)
    requires m.Ok() && Collects(m.state, c)
    ensures Step(m, c).result.ParsingIncomplete? && Step(m, c).m.state == m.state
    ensures Collected(Step(m, c).m, a) == Collected(m, [c] + a)
  {
    hide IsContentLength, IsChunked, HasBody, Atoi, KeepAlive, IsAlnum, ChunkLength, BodyStep;
    var r := m.req;
    assert ([c] + a)[1..] == a;
    match m.state
    case Line(RequestMethod) => assert r.verb + [c] + a == r.verb + ([c] + a);
    case Line(RequestUri) => assert r.uri + [c] + a == r.uri + ([c] + a);
    case Block(HeaderName) => assert Last(r.headers).name + [c] + a == Last(r.headers).name + ([c] + a);
    case Block(HeaderValue) => assert Last(r.headers).value + [c] + a == Last(r.headers).value + ([c] + a);
    case _ =>
  }

  lemma CollectNone(m: Machine)
    requires m.Ok()
    ensures Collected(m, "") == m
  {
    var r := m.req;
    assert r.verb + "" == r.verb && r.uri + "" == r.uri;
    if r.headers != [] {
      var h := Last(r.headers);
      assert h.name + "" == h.name && h.value + "" == h.value;
      assert Front(r.headers) + [h] == r.headers;
    }
  }

  lemma {:induction false} CollectRun(m: Machine, a: string)
    requires m.Ok() && forall i | 0 <= i < |a| :: Collects(m.state, a[i])
    ensures Reaches(m, a, Collected(m, a)) && Collected(m, a).state == m.state
    decreases |a|
  {
    hide Step, Collected, Collects;
    CollectNone(m);
    if a != "" {
      assert a == [a[0]] + a[1..];
      CollectOne(m, a[0], a[1..]);
      CollectRun(Step(m, a[0]).m, a[1..]);
    }
  }

  // ---------- Every spelling is read ----------

  /** The machine in front of a header line, or of the end of the head. */
  function AtLine(r: Request, f: Framed): Machine {
    FRESH.(state := Block(HeaderLineStart), contentSize := f.length, chunked := f.chunked,
           req := Request(r.verb, r.uri, r.versionMajor, r.versionMinor, f.headers, "", false))
  }

  lemma Byte(m: Machine, s: string, n: Machine, c: char, p: Machine)
    requires Reaches(m, s, n) && Step(n, c) == More(p)
    ensures Reaches(m, s + [c], p)
  {
    ThenByte(m, s, n, c);
  }

  lemma Text(m: Machine, s: string, n: Machine, a: string)
    requires Reaches(m, s, n) && forall i | 0 <= i < |a| :: Collects(n.state, a[i])
    ensures Reaches(m, s + a, Collected(n, a))
  {
    hide Consume;
    CollectRun(n, a);
    Compose(m, s, n, a, Collected(n, a));
  }

  /** The machine at the CR that ends a header text. */
  function AtValue(r: Request, f: Framed, headers: seq<HeaderItem>): Machine {
    AtLine(r, f).(state := Block(HeaderValue), req := AtLine(r, f).req.(headers := headers))
  }

  lemma ValueEnds(m: Machine, s: string, r: Request, f: Framed, headers: seq<HeaderItem>)
    requires headers != [] && Reaches(m, s, AtValue(r, f, headers))
    requires f.length <= MAX_SIZE
    requires Announcing(r.verb, f.(headers := headers)).length <= MAX_SIZE
    ensures Reaches(m, s + "\r" + "\n", AtLine(r, Announcing(r.verb, f.(headers := headers))))
  {
    hide Consume, IsContentLength, IsChunked, Atoi, HasBody, ToSize;
    var g := Announcing(r.verb, f.(headers := headers));
    var n := AtLine(r, g).(state := Block(ExpectingNewline_2));
    assert Step(AtValue(r, f, headers), '\r') == More(n);
    Byte(m, s, AtValue(r, f, headers), '\r', n);
    Byte(m, s + "\r", n, '\n', AtLine(r, g));
  }

  lemma FieldUpToBreak(r: Request, f: Framed, name: string, value: string)
    requires GoodLine(Field(name, value))
    ensures Reaches(AtLine(r, f), name + ":" + " " + value, AtValue(r, f, f.headers + [HeaderItem(name, value)]))
  {
    hide Consume, IsContentLength, IsChunked, Atoi, HasBody, IsToken, IsControl, Announcing;
    var m := AtLine(r, f);
    var hs := f.headers + [HeaderItem(name[..1], "")];
    var n := m.(state := Block(HeaderName), req := m.req.(headers := hs));
    Nothing(m);
    assert "" + [name[0]] == [name[0]] == name[..1];
    StartsName(m, name[0]);
    Byte(m, "", m, name[0], n);
    Text(m, name[..1], n, name[1..]);
    assert name[..1] + name[1..] == name;
    var named := n.(req := n.req.(headers := f.headers + [HeaderItem(name, "")]));
    assert Collected(n, name[1..]) == named;
    Colon(named);
    Byte(m, name, named, ':', named.(state := Block(SpaceBeforeHeaderValue)));
    Byte(m, name + ":", named.(state := Block(SpaceBeforeHeaderValue)), ' ', named.(state := Block(HeaderValue)));
    Text(m, name + ":" + " ", named.(state := Block(HeaderValue)), value);
    var headers := f.headers + [HeaderItem(name, value)];
    assert "" + value == value;
    assert Collected(named.(state := Block(HeaderValue)), value) == AtValue(r, f, headers);
  }

  lemma FieldRun(r: Request, f: Framed, name: string, value: string)
    requires GoodLine(Field(name, value)) && f.length <= MAX_SIZE && WithLine(r.verb, f, Field(name, value)).length <= MAX_SIZE
    ensures Reaches(AtLine(r, f), LineText(Field(name, value)), AtLine(r, WithLine(r.verb, f, Field(name, value))))
  {
    hide Consume, Announcing;
    FieldUpToBreak(r, f, name, value);
    ValueEnds(AtLine(r, f), name + ":" + " " + value, r, f, f.headers + [HeaderItem(name, value)]);
  }

  lemma StartsName(m: Machine, c: char)
    requires m.state == Block(HeaderLineStart) && IsToken(c)
    ensures Step(m, c) == More(m.(state := Block(HeaderName), req := m.req.(headers := m.req.headers + [HeaderItem([c], "")])))
  {
  }

  lemma Colon(m: Machine)
    requires m.Ok() && m.state == Block(HeaderName)
    ensures Step(m, ':') == More(m.(state := Block(SpaceBeforeHeaderValue)))
    ensures Step(m.(state := Block(SpaceBeforeHeaderValue)), ' ') == More(m.(state := Block(HeaderValue)))
  {
  }

  function Folded(f: Framed, text: string): seq<HeaderItem>
    requires f.headers != []
  {
    WithLast(f.headers, HeaderItem(Last(f.headers).name, Last(f.headers).value + text))
  }

  lemma BlanksRun(r: Request, f: Framed, blanks: string)
    requires blanks != "" && All(IsBlank, blanks) && f.headers != []
    ensures Reaches(AtLine(r, f), blanks, AtLine(r, f).(state := Block(HeaderLws)))
  {
    hide Consume, IsContentLength, IsChunked, Atoi, HasBody, IsToken;
    var m := AtLine(r, f);
    var n := m.(state := Block(HeaderLws));
    Nothing(m);
    assert "" + [blanks[0]] == [blanks[0]] == blanks[..1];
    Byte(m, "", m, blanks[0], n);
    Text(m, blanks[..1], n, blanks[1..]);
    assert blanks[..1] + blanks[1..] == blanks;
  }

  lemma FoldUpToBreak(r: Request, f: Framed, blanks: string, text: string)
    requires GoodLine(Fold(blanks, text)) && text != "" && f.headers != []
    ensures Reaches(AtLine(r, f), blanks + text, AtValue(r, f, Folded(f, text)))
  {
    hide Consume, IsContentLength, IsChunked, Atoi, HasBody, IsToken;
    var m, h := AtLine(r, f), Last(f.headers);
    BlanksRun(r, f, blanks);
    var first := AtValue(r, f, Folded(f, text[..1]));
    assert [text[0]] == text[..1];
    Byte(m, blanks, m.(state := Block(HeaderLws)), text[0], first);
    Text(m, blanks + text[..1], first, text[1..]);
    Rejoin(blanks, text);
    Rejoin(h.value, text);
    assert Front(first.req.headers) == Front(f.headers);
    assert Collected(first, text[1..]) == AtValue(r, f, Folded(f, text));
  }

  lemma FoldRun(r: Request, f: Framed, blanks: string, text: string)
    requires GoodLine(Fold(blanks, text)) && f.headers != []
    requires f.length <= MAX_SIZE && WithLine(r.verb, f, Fold(blanks, text)).length <= MAX_SIZE
    ensures Reaches(AtLine(r, f), LineText(Fold(blanks, text)), AtLine(r, WithLine(r.verb, f, Fold(blanks, text))))
  {
    hide Consume, Announcing;
    var m := AtLine(r, f);
    if text == "" {
      BlanksRun(r, f, blanks);
      assert blanks + "" == blanks;
      Byte(m, blanks, m.(state := Block(HeaderLws)), '\r', m.(state := Block(ExpectingNewline_2)));
      Byte(m, blanks + "\r", m.(state := Block(ExpectingNewline_2)), '\n', m);
    } else {
      FoldUpToBreak(r, f, blanks, text);
      ValueEnds(m, blanks + text, r, f, Folded(f, text));
    }
  }

  lemma Rejoin(a: string, text: string)
    requires text != ""
    ensures a + text[..1] + text[1..] == a + text
  {
  }

  lemma {:induction false} LinesRun(r: Request, f: Framed, lines: seq<HeadLine>)
    requires (forall l | l in lines :: GoodLine(l)) && (lines != [] ==> lines[0].Field? || f.headers != [])
    requires f.length <= MAX_SIZE && Fit(r.verb, f, lines)
    ensures Reaches(AtLine(r, f), LinesText(lines), AtLine(r, WithLines(r.verb, f, lines)))
    decreases |lines|
  {
    hide Consume, LineText, GoodLine, Announcing;
    if lines == [] {
      Nothing(AtLine(r, f));
    } else {
      var l, g := lines[0], WithLine(r.verb, f, lines[0]);
      if l.Field? { FieldRun(r, f, l.name, l.value); } else { FoldRun(r, f, l.blanks, l.text); }
      HeadersStay(r.verb, f, l);
      LinesRun(r, g, lines[1..]);
      Compose(AtLine(r, f), LineText(l), AtLine(r, g), LinesText(lines[1..]), AtLine(r, WithLines(r.verb, f, lines)));
    }
  }

  lemma HeadersStay(verb: string, f: Framed, l: HeadLine)
    ensures |WithLine(verb, f, l).headers| >= |f.headers| && (l.Field? ==> WithLine(verb, f, l).headers != [])
  {
  }

  // ---------- Behind the head ----------

  /** The machine behind the byte that follows the last CR. */
  function AtBody(r: Request, f: Framed): Machine {
    var m := AtLine(r, f);
    m.(state := Body(if f.chunked then ChunkSize else Post),
       req := m.req.(keepAlive := KeepAlive(f.headers, r.versionMajor, r.versionMinor, false)))
  }

  lemma HeadEnds(r: Request, f: Framed, sep: char)
    ensures Reaches(AtLine(r, f), "\r", AtLine(r, f).(state := Block(ExpectingNewline_3)))
    ensures var o := Step(AtLine(r, f).(state := Block(ExpectingNewline_3)), sep);
            if f.chunked || f.length > 0 then o == More(AtBody(r, f))
            else o == Outcome(if sep == '\n' then ParsingCompleted else ParsingError,
                              AtBody(r, f).(state := Block(ExpectingNewline_3)))
  {
    hide KeepAlive;
    assert "\r"[1..] == "";
  }

  /** The result of a tail, once its lines are read. */
  ghost predicate Ends(r: Request, f: Framed, t: string, result: Request) {
    var o := Consume(AtLine(r, f), t);
    o.result.ParsingCompleted? && o.m.req == result
  }

  lemma BodyDelivers(r: Request, f: Framed, sep: char, t: string, result: Request)
    requires f.length <= MAX_SIZE
    ensures Ends(r, f, "\r" + ([sep] + t), result) <==>
            && result == AtBody(r, f).req.(content := result.content)
            && exists body, rest :: t == body + rest && IsBody(f, sep, body, result.content)
  {
    hide Encode, Good, Payload, KeepAlive, Step, ChunkLength;
    HeadEnds(r, f, sep);
    var e := AtLine(r, f).(state := Block(ExpectingNewline_3));
    ConsumeAppend(AtLine(r, f), "\r", [sep] + t);
    assert ([sep] + t)[1..] == t;
    if f.chunked {
      ChunkedDelivers(AtBody(r, f), t, result);
    } else if f.length == 0 {
      assert t == "" + t;
    } else {
      PostDelivers(AtBody(r, f), t, result);
    }
  }

  lemma PostDelivers(m: Machine, t: string, result: Request)
    requires m.state == Body(Post) && m.contentSize > 0 && m.req.content == ""
    ensures Consume(m, t).result.ParsingCompleted? && Consume(m, t).m.req == result <==>
            && result == m.req.(content := result.content)
            && exists body, rest :: t == body + rest && body == result.content && |body| == m.contentSize
  {
    hide Step;
    if |t| >= m.contentSize {
      var body, rest := t[..m.contentSize], t[m.contentSize..];
      assert t == body + rest;
      PostRun(m, body);
      ConsumeAppend(m, body, rest);
      assert "" + body == body;
    } else if t != "" {
      PostRun(m, t);
    }
  }

  lemma ChunkedDelivers(m: Machine, t: string, result: Request)
    requires m.state == Body(ChunkSize) && m.chunkSizeStr == "" && m.req.content == ""
    ensures Consume(m, t).result.ParsingCompleted? && Consume(m, t).m.req == result <==>
            && result == m.req.(content := result.content)
            && exists body, rest :: t == body + rest && IsChunkedBody(body, result.content)
  {
    hide Encode, Good, Payload, Consume;
    if Consume(m, t).result.ParsingCompleted? && Consume(m, t).m.req == result {
      var b, rest := Decode(m, t);
      ChunkedDecodes(m, b, rest);
      assert "" + Payload(b.chunks) == Payload(b.chunks);
      assert t == Encode(b) + rest && IsChunkedBody(Encode(b), result.content);
    }
    forall body, rest | result == m.req.(content := result.content) && t == body + rest && IsChunkedBody(body, result.content)
      ensures Consume(m, t).result.ParsingCompleted? && Consume(m, t).m.req == result
    {
      var b :| Good(b) && body == Encode(b) && result.content == Payload(b.chunks) && |result.content| <= MAX_SIZE;
      ChunkedDecodes(m, b, rest);
      assert "" + Payload(b.chunks) == Payload(b.chunks);
    }
  }

  // ---------- Everything read is a spelling ----------

  /** The first byte of an input that completes is read without an error. */
  lemma FirstOf(m: Machine, t: string)
    requires m.Ok() && Consume(m, t).result.ParsingCompleted?
    ensures t != "" && t == [t[0]] + t[1..]
    ensures Step(m, t[0]).result in {ParsingIncomplete, ParsingCompleted}
    ensures Step(m, t[0]).result.ParsingIncomplete? ==> Consume(m, t) == Consume(Step(m, t[0]).m, t[1..])
  {
    hide Step;
  }

  /** What a collecting state takes, and the byte behind it. */
  lemma SplitOff(m: Machine, t: string) returns (a: string, b: string)
    requires m.Ok() && Consume(m, t).result.ParsingCompleted?
    ensures t == a + b && (forall i | 0 <= i < |a| :: Collects(m.state, a[i])) && b != "" && !Collects(m.state, b[0])
    ensures Collected(m, a).Ok() && Collected(m, a).state == m.state && Consume(m, t) == Consume(Collected(m, a), b)
    ensures Step(Collected(m, a), b[0]).result in {ParsingIncomplete, ParsingCompleted}
    ensures Step(Collected(m, a), b[0]).result.ParsingIncomplete? ==> Consume(m, t) == Consume(Step(Collected(m, a), b[0]).m, b[1..])
  {
    hide Step, Collected, Collects;
    a, b := Split(m, t);
    CollectRun(m, a);
    ConsumeAppend(m, a, b);
    FirstOf(Collected(m, a), b);
  }

  lemma ValueStops(m: Machine, c: char)
    requires m.Ok() && m.state == Block(HeaderValue) && !IsFieldByte(c) && Step(m, c).result in {ParsingIncomplete, ParsingCompleted}
    ensures c == '\r' && Step(m, c).result.ParsingIncomplete? && Step(m, c).m.state == Block(ExpectingNewline_2)
    ensures Step(m, c).m.contentSize <= MAX_SIZE || Step(m, c).m.contentSize == m.contentSize
  {
    hide IsContentLength, IsChunked, HasBody, Atoi;
  }

  lemma BreakOnly(m: Machine, c: char)
    requires m.state == Block(ExpectingNewline_2) && Step(m, c).result in {ParsingIncomplete, ParsingCompleted}
    ensures c == '\n' && Step(m, c) == More(m.(state := Block(HeaderLineStart)))
  {
  }

  lemma SplitValue(m: Machine, t: string) returns (value: string, rest: string)
    requires m.Ok() && m.state == Block(HeaderValue) && Consume(m, t).result.ParsingCompleted?
    ensures All(IsFieldByte, value) && t == value + ("\r" + ("\n" + rest))
  {
    hide Consume, Step, Collected;
    var b;
    value, b := SplitOff(m, t);
    ValueStops(Collected(m, value), b[0]);
    var n := Step(Collected(m, value), b[0]).m;
    FirstOf(n, b[1..]);
    BreakOnly(n, b[1..][0]);
    rest := b[1..][1..];
    assert b == "\r" + ("\n" + rest);
  }

  lemma LineStarts(m: Machine, c: char)
    requires m.Ok() && m.state == Block(HeaderLineStart) && c != '\r' && Step(m, c).result in {ParsingIncomplete, ParsingCompleted}
    ensures Step(m, c).result.ParsingIncomplete?
    ensures if m.req.headers != [] && IsBlank(c) then Step(m, c).m.state == Block(HeaderLws)
            else IsToken(c) && Step(m, c).m.state == Block(HeaderName)
  {
  }

  lemma NameStops(m: Machine, c: char)
    requires m.Ok() && m.state == Block(HeaderName) && !IsToken(c) && Step(m, c).result in {ParsingIncomplete, ParsingCompleted}
    ensures c == ':' && Step(m, c) == More(m.(state := Block(SpaceBeforeHeaderValue)))
  {
  }

  lemma SpaceOnly(m: Machine, c: char)
    requires m.Ok() && m.state == Block(SpaceBeforeHeaderValue) && Step(m, c).result in {ParsingIncomplete, ParsingCompleted}
    ensures c == ' ' && Step(m, c) == More(m.(state := Block(HeaderValue)))
  {
  }

  lemma LwsStops(m: Machine, c: char)
    requires m.Ok() && m.state == Block(HeaderLws) && !IsBlank(c) && Step(m, c).result in {ParsingIncomplete, ParsingCompleted}
    ensures Step(m, c).result.ParsingIncomplete?
    ensures if c == '\r' then Step(m, c).m.state == Block(ExpectingNewline_2)
            else IsFieldByte(c) && Step(m, c).m.state == Block(HeaderValue)
  {
  }

  /** One header line in front of an input that completes. */
  lemma SplitLine(m: Machine, t: string) returns (l: HeadLine, rest: string)
    requires m.Ok() && m.state == Block(HeaderLineStart) && Consume(m, t).result.ParsingCompleted? && t != "" && t[0] != '\r'
    ensures GoodLine(l) && t == LineText(l) + rest && (l.Field? || m.req.headers != [])
  {
    hide Consume, Step, Collected, IsToken, IsControl;
    FirstOf(m, t);
    LineStarts(m, t[0]);
    var n := Step(m, t[0]).m;
    var a, b := SplitOff(n, t[1..]);
    var p := Collected(n, a);
    if n.state == Block(HeaderName) {
      NameStops(p, b[0]);
      var q := Step(p, b[0]).m;
      FirstOf(q, b[1..]);
      SpaceOnly(q, b[1..][0]);
      var value, u := SplitValue(Step(q, b[1..][0]).m, b[1..][1..]);
      l, rest := Field([t[0]] + a, value), u;
      assert b == ":" + (" " + (value + ("\r" + ("\n" + u))));
      FieldParts(t[0], a, value, u);
    } else {
      LwsStops(p, b[0]);
      var q := Step(p, b[0]).m;
      if b[0] == '\r' {
        FirstOf(q, b[1..]);
        BreakOnly(q, b[1..][0]);
        l, rest := Fold([t[0]] + a, ""), b[1..][1..];
        assert b == "\r" + ("\n" + rest);
        FoldParts(t[0], a, "", rest);
      } else {
        var value, u := SplitValue(q, b[1..]);
        l, rest := Fold([t[0]] + a, [b[0]] + value), u;
        assert b == [b[0]] + value + ("\r" + ("\n" + u));
        FoldParts(t[0], a, [b[0]] + value, u);
      }
    }
  }

  lemma FieldParts(c: char, a: string, value: string, rest: string)
    ensures [c] + (a + (":" + (" " + (value + ("\r" + ("\n" + rest)))))) == LineText(Field([c] + a, value)) + rest
  {
  }

  lemma FoldParts(c: char, a: string, text: string, rest: string)
    ensures [c] + (a + (text + ("\r" + ("\n" + rest)))) == LineText(Fold([c] + a, text)) + rest
    ensures text == "" ==> text + ("\r" + ("\n" + rest)) == "\r" + ("\n" + rest)
  {
  }

  /** A value whose CR is survived announced a length that fits. */
  lemma ValueFits(m: Machine, s: string, r: Request, f: Framed, headers: seq<HeaderItem>, rest: string)
    requires headers != [] && f.length <= MAX_SIZE && Reaches(m, s, AtValue(r, f, headers))
    requires Consume(m, s + ("\r" + rest)).result.ParsingCompleted?
    ensures Announcing(r.verb, f.(headers := headers)).length <= MAX_SIZE
  {
    hide IsContentLength, IsChunked, Atoi, HasBody, ToSize, Consume;
    ConsumeAppend(m, s, "\r" + rest);
    FirstOf(AtValue(r, f, headers), "\r" + rest);
  }

  lemma LineFits(r: Request, f: Framed, l: HeadLine, rest: string)
    requires GoodLine(l) && (l.Field? || f.headers != []) && f.length <= MAX_SIZE
    requires Consume(AtLine(r, f), LineText(l) + rest).result.ParsingCompleted?
    ensures WithLine(r.verb, f, l).length <= MAX_SIZE
  {
    hide Announcing, Consume;
    var m := AtLine(r, f);
    match l
    case Field(name, value) =>
      FieldUpToBreak(r, f, name, value);
      var s := name + ":" + " " + value;
      assert LineText(l) + rest == s + ("\r" + ("\n" + rest));
      ValueFits(m, s, r, f, f.headers + [HeaderItem(name, value)], "\n" + rest);
    case Fold(blanks, text) =>
      if text != "" {
        FoldUpToBreak(r, f, blanks, text);
        assert LineText(l) + rest == blanks + text + ("\r" + ("\n" + rest));
        ValueFits(m, blanks + text, r, f, Folded(f, text), "\n" + rest);
      }
  }

  lemma {:induction false} SplitLines(r: Request, f: Framed, t: string) returns (lines: seq<HeadLine>, rest: string)
    requires f.length <= MAX_SIZE && Consume(AtLine(r, f), t).result.ParsingCompleted?
    ensures (forall l | l in lines :: GoodLine(l)) && (lines != [] ==> lines[0].Field? || f.headers != [])
    ensures Fit(r.verb, f, lines) && t == LinesText(lines) + ("\r" + rest)
    decreases |t|
  {
    hide Consume, Step, LineText, GoodLine, WithLine;
    FirstOf(AtLine(r, f), t);
    if t[0] == '\r' {
      lines, rest := [], t[1..];
      assert t == "" + ("\r" + rest);
    } else {
      var l, u := SplitLine(AtLine(r, f), t);
      LineFits(r, f, l, u);
      var g := WithLine(r.verb, f, l);
      OneLineRun(r, f, l);
      ConsumeAppend(AtLine(r, f), LineText(l), u);
      LineIsLong(l);
      HeadersStay(r.verb, f, l);
      var ls;
      ls, rest := SplitLines(r, g, u);
      lines := [l] + ls;
      assert lines[1..] == ls;
      assert LineText(l) + (LinesText(ls) + ("\r" + rest)) == LineText(l) + LinesText(ls) + ("\r" + rest);
    }
  }

  lemma LineIsLong(l: HeadLine)
    ensures |LineText(l)| > 0
  {
  }

  lemma OneLineRun(r: Request, f: Framed, l: HeadLine)
    requires GoodLine(l) && (l.Field? || f.headers != []) && f.length <= MAX_SIZE && WithLine(r.verb, f, l).length <= MAX_SIZE
    ensures Reaches(AtLine(r, f), LineText(l), AtLine(r, WithLine(r.verb, f, l)))
  {
    hide WithLine, LineText, Consume;
    if l.Field? { FieldRun(r, f, l.name, l.value); } else { FoldRun(r, f, l.blanks, l.text); }
  }

  lemma {:induction false} FitEnds(verb: string, f: Framed, lines: seq<HeadLine>)
    requires f.length <= MAX_SIZE && Fit(verb, f, lines)
    ensures WithLines(verb, f, lines).length <= MAX_SIZE
    decreases |lines|
  {
    hide WithLine;
    if lines != [] { FitEnds(verb, WithLine(verb, f, lines[0]), lines[1..]); }
  }

  lemma TailDelivers(r: Request, lines: seq<HeadLine>, sep: char, t: string, result: Request)
    requires GoodLines(lines) && Fit(r.verb, NO_HEADERS, lines)
    ensures var f := WithLines(r.verb, NO_HEADERS, lines);
            Ends(r, NO_HEADERS, LinesText(lines) + ("\r" + ([sep] + t)), result) <==>
            && result == AtBody(r, f).req.(content := result.content)
            && exists body, rest :: t == body + rest && IsBody(f, sep, body, result.content)
  {
    hide Consume, GoodLine, WithLine, IsBody, AtBody;
    LinesRun(r, NO_HEADERS, lines);
    FitEnds(r.verb, NO_HEADERS, lines);
    var f := WithLines(r.verb, NO_HEADERS, lines);
    ConsumeAppend(AtLine(r, NO_HEADERS), LinesText(lines), "\r" + ([sep] + t));
    BodyDelivers(r, f, sep, t, result);
  }

  /** Behind the start line exactly the tails of the grammar are accepted, with just their meaning. */
  lemma TailExactly(r: Request, t: string, result: Request)
    ensures Ends(r, NO_HEADERS, t, result) <==> TailShape(r, t, result)
  {
    hide Consume, GoodLines, WithLine, IsBody, Fit, KeepAlive, KeptAlive;
    if Ends(r, NO_HEADERS, t, result) {
      var lines, u := SplitLines(r, NO_HEADERS, t);
      GoodLinesOf(lines);
      FitEnds(r.verb, NO_HEADERS, lines);
      var f := WithLines(r.verb, NO_HEADERS, lines);
      LinesRun(r, NO_HEADERS, lines) by { GoodLinesOf(lines); }
      ConsumeAppend(AtLine(r, NO_HEADERS), LinesText(lines), "\r" + u);
      HeadEnds(r, f, ' ');
      ConsumeAppend(AtLine(r, f), "\r", u);
      FirstOf(AtLine(r, f).(state := Block(ExpectingNewline_3)), u);
      TailDelivers(r, lines, u[0], u[1..], result);
      var body, rest :| u[1..] == body + rest && IsBody(f, u[0], body, result.content);
      KeepAliveMeans(f.headers, r.versionMajor, r.versionMinor);
      assert IsTail(r, t, result, lines, u[0], body, rest);
    }
    forall lines, sep, body, rest | IsTail(r, t, result, lines, sep, body, rest) ensures Ends(r, NO_HEADERS, t, result) {
      var f := WithLines(r.verb, NO_HEADERS, lines);
      KeepAliveMeans(f.headers, r.versionMajor, r.versionMinor);
      TailDelivers(r, lines, sep, body + rest, result);
    }
  }

  lemma GoodLinesOf(lines: seq<HeadLine>)
    ensures GoodLines(lines) <==> (forall l | l in lines :: GoodLine(l)) && (lines != [] ==> lines[0].Field?)
  {
  }

  // ---------- The start line ----------

  lemma TargetRun(verb: string, uri: string)
    requires GoodToken(verb) && GoodUri(uri)
    ensures Reaches(FRESH, Target(verb, uri), FRESH.(state := Line(RequestUri), req := EMPTY_REQUEST.(verb := verb, uri := uri)))
  {
    hide Consume;
    VerbRun(verb);
    var n := FRESH.(state := Line(RequestMethod), req := EMPTY_REQUEST.(verb := verb));
    ThenByte(FRESH, verb, n, ' ');
    UriRun(verb + " ", n.(state := Line(RequestUriStart)), uri);
  }

  lemma MajorDigits(m: Machine, s: string, n: Machine, digits: string)
    requires Reaches(m, s, n) && n.state == Line(RequestHttpVersion_majorStart) && digits != "" && All(IsDigit, digits)
    ensures Reaches(m, s + digits, n.(state := Line(RequestHttpVersion_major), req := n.req.(versionMajor := ReadDigits(digits, 0))))
  {
    hide Consume;
    var p := n.(state := Line(RequestHttpVersion_major), req := n.req.(versionMajor := DigitValue(digits[0])));
    Byte(m, s, n, digits[0], p);
    Text(m, s + [digits[0]], p, digits[1..]);
    assert s + [digits[0]] + digits[1..] == s + digits;
  }

  lemma MinorDigits(m: Machine, s: string, n: Machine, digits: string)
    requires Reaches(m, s, n) && n.state == Line(RequestHttpVersion_minorStart) && digits != "" && All(IsDigit, digits)
    ensures Reaches(m, s + digits, n.(state := Line(RequestHttpVersion_minor), req := n.req.(versionMinor := ReadDigits(digits, 0))))
  {
    hide Consume;
    var p := n.(state := Line(RequestHttpVersion_minor), req := n.req.(versionMinor := DigitValue(digits[0])));
    Byte(m, s, n, digits[0], p);
    Text(m, s + [digits[0]], p, digits[1..]);
    assert s + [digits[0]] + digits[1..] == s + digits;
  }

  lemma VersionRun(r: Request, major: string, minor: string)
    requires GoodToken(r.verb) && GoodUri(r.uri) && IsNumber(major, r.versionMajor) && IsNumber(minor, r.versionMinor)
    ensures Reaches(FRESH, VersionLine(r.verb, r.uri, major, minor), AtLine(r, NO_HEADERS))
  {
    hide Consume, HttpSlash, Target, ReadDigits;
    TargetRun(r.verb, r.uri);
    var s, n := Target(r.verb, r.uri), FRESH.(state := Line(RequestUri), req := EMPTY_REQUEST.(verb := r.verb, uri := r.uri));
    SlashRun(s, n);
    s, n := HttpSlash(s), n.(state := Line(RequestHttpVersion_majorStart));
    MajorDigits(FRESH, s, n, major);
    s, n := s + major, n.(state := Line(RequestHttpVersion_major), req := n.req.(versionMajor := r.versionMajor));
    ThenByte(FRESH, s, n, '.');
    s, n := s + ".", n.(state := Line(RequestHttpVersion_minorStart));
    MinorDigits(FRESH, s, n, minor);
    s, n := s + minor, n.(state := Line(RequestHttpVersion_minor), req := n.req.(versionMinor := r.versionMinor));
    ThenByte(FRESH, s, n, '\r');
    ThenByte(FRESH, s + "\r", n.(state := Line(ResponseHttpVersion_newLine)), '\n');
  }

  /** The one byte a state accepts, where it accepts one only. */
  predicate Expects(s: State, c: char) {
    match s
    case Line(RequestHttpVersion_h) => c == 'H'
    case Line(RequestHttpVersion_ht) => c == 'T'
    case Line(RequestHttpVersion_htt) => c == 'T'
    case Line(RequestHttpVersion_http) => c == 'P'
    case Line(RequestHttpVersion_slash) => c == '/'
    case Line(ResponseHttpVersion_newLine) => c == '\n'
    case _ => true
  }

  function Following(s: State): State {
    match s
    case Line(RequestHttpVersion_h) => Line(RequestHttpVersion_ht)
    case Line(RequestHttpVersion_ht) => Line(RequestHttpVersion_htt)
    case Line(RequestHttpVersion_htt) => Line(RequestHttpVersion_http)
    case Line(RequestHttpVersion_http) => Line(RequestHttpVersion_slash)
    case Line(RequestHttpVersion_slash) => Line(RequestHttpVersion_majorStart)
    case _ => Block(HeaderLineStart)
  }

  lemma Only(m: Machine, t: string) returns (u: string)
    requires m.Ok() && Consume(m, t).result.ParsingCompleted?
    requires m.state in {Line(RequestHttpVersion_h), Line(RequestHttpVersion_ht), Line(RequestHttpVersion_htt),
                         Line(RequestHttpVersion_http), Line(RequestHttpVersion_slash), Line(ResponseHttpVersion_newLine)}
    ensures t != "" && Expects(m.state, t[0]) && t == [t[0]] + u
    ensures Step(m, t[0]).m.Ok() && Step(m, t[0]).m.state == Following(m.state) && Consume(m, t) == Consume(Step(m, t[0]).m, u)
  {
    FirstOf(m, t);
    u := t[1..];
  }

  lemma SplitSlash(m: Machine, t: string) returns (n: Machine, u: string)
    requires m.state == Line(RequestHttpVersion_h) && Consume(m, t).result.ParsingCompleted?
    ensures n.state == Line(RequestHttpVersion_majorStart) && t == "H" + ("T" + ("T" + ("P" + ("/" + u)))) && Consume(m, t) == Consume(n, u)
  {
    hide Consume, Step;
    var t1 := Only(m, t);
    var m1 := Step(m, t[0]).m;
    var t2 := Only(m1, t1);
    var m2 := Step(m1, t1[0]).m;
    var t3 := Only(m2, t2);
    var m3 := Step(m2, t2[0]).m;
    var t4 := Only(m3, t3);
    var m4 := Step(m3, t3[0]).m;
    u := Only(m4, t4);
    n := Step(m4, t4[0]).m;
  }

  lemma DigitFirst(m: Machine, c: char)
    requires m.state in {Line(RequestHttpVersion_majorStart), Line(RequestHttpVersion_minorStart)}
    requires Step(m, c).result in {ParsingIncomplete, ParsingCompleted}
    ensures IsDigit(c) && Step(m, c).result.ParsingIncomplete?
    ensures Step(m, c).m.state == if m.state == Line(RequestHttpVersion_majorStart) then Line(RequestHttpVersion_major) else Line(RequestHttpVersion_minor)
  {
  }

  lemma DigitsStop(m: Machine, c: char)
    requires m.state in {Line(RequestHttpVersion_major), Line(RequestHttpVersion_minor)} && !IsDigit(c)
    requires Step(m, c).result in {ParsingIncomplete, ParsingCompleted}
    ensures Step(m, c).result.ParsingIncomplete?
    ensures if m.state == Line(RequestHttpVersion_major) then c == '.' && Step(m, c).m.state == Line(RequestHttpVersion_minorStart)
            else c == '\r' && Step(m, c).m.state == Line(ResponseHttpVersion_newLine)
  {
  }

  lemma SplitDigits(m: Machine, t: string) returns (digits: string, n: Machine, u: string)
    requires m.state in {Line(RequestHttpVersion_majorStart), Line(RequestHttpVersion_minorStart)}
    requires Consume(m, t).result.ParsingCompleted?
    ensures digits != "" && All(IsDigit, digits) && n.Ok() && Consume(m, t) == Consume(n, u)
    ensures if m.state == Line(RequestHttpVersion_majorStart)
            then t == digits + ("." + u) && n.state == Line(RequestHttpVersion_minorStart)
            else t == digits + ("\r" + u) && n.state == Line(ResponseHttpVersion_newLine)
  {
    hide Consume, Step, Collected;
    FirstOf(m, t);
    DigitFirst(m, t[0]);
    var p := Step(m, t[0]).m;
    var a, b := SplitOff(p, t[1..]);
    DigitsStop(Collected(p, a), b[0]);
    digits, n, u := [t[0]] + a, Step(Collected(p, a), b[0]).m, b[1..];
    assert b == [b[0]] + u;
    assert t == [t[0]] + (a + b) == digits + b;
  }

  lemma TargetSteps(m: Machine, c: char)
    requires m.Ok() && Step(m, c).result in {ParsingIncomplete, ParsingCompleted}
    ensures m.state == Line(RequestMethodStart) ==> IsToken(c) && Step(m, c).result.ParsingIncomplete? && Step(m, c).m.state == Line(RequestMethod)
    ensures m.state == Line(RequestMethod) && !IsToken(c) ==>
              c == ' ' && Step(m, c).result.ParsingIncomplete? && Step(m, c).m.state == Line(RequestUriStart)
    ensures m.state == Line(RequestUriStart) ==> !IsControl(c) && Step(m, c).result.ParsingIncomplete? && Step(m, c).m.state == Line(RequestUri)
    ensures m.state == Line(RequestUri) && !IsUriByte(c) ==>
              || (c == ' ' && Step(m, c).result.ParsingIncomplete? && Step(m, c).m.state == Line(RequestHttpVersion_h))
              || (c == '\r' && Step(m, c).result.ParsingCompleted?)
  {
    hide BlockStep, BodyStep;
  }

  /** The first two words of an input that completes. */
  lemma SplitTarget(input: string) returns (verb: string, uri: string, u: string)
    requires Consume(FRESH, input).result.ParsingCompleted?
    ensures GoodToken(verb) && GoodUri(uri) && input == Target(verb, uri) + u && u != "" && (u[0] == ' ' || u[0] == '\r')
  {
    hide Consume, Step, Collected, IsToken, IsControl;
    FirstOf(FRESH, input);
    TargetSteps(FRESH, input[0]);
    var m := Step(FRESH, input[0]).m;
    var a, b := SplitOff(m, input[1..]);
    TargetSteps(Collected(m, a), b[0]);
    var n := Step(Collected(m, a), b[0]).m;
    FirstOf(n, b[1..]);
    TargetSteps(n, b[1..][0]);
    var p := Step(n, b[1..][0]).m;
    var c, d := SplitOff(p, b[1..][1..]);
    TargetSteps(Collected(p, c), d[0]);
    verb, uri, u := [input[0]] + a, [b[1..][0]] + c, d;
    assert uri[1..] == c;
    assert b == " " + b[1..];
    TargetParts(input[0], a, b[1..][0], c, d);
  }

  lemma TargetParts(c: char, a: string, d: char, b: string, u: string)
    ensures [c] + (a + (" " + ([d] + (b + u)))) == Target([c] + a, [d] + b) + u
  {
  }

  /** The rest of the start line, unless it is the short form. */
  lemma SplitVersion(m: Machine, u: string) returns (major: string, minor: string, t: string)
    requires m.state == Line(RequestHttpVersion_h) && Consume(m, u).result.ParsingCompleted?
    ensures major != "" && All(IsDigit, major) && minor != "" && All(IsDigit, minor)
    ensures " " + u == " " + "H" + "T" + "T" + "P" + "/" + major + "." + minor + "\r" + "\n" + t
  {
    hide Consume, Step;
    var n, v := SplitSlash(m, u);
    var p, q, w, x;
    major, p, w := SplitDigits(n, v);
    minor, q, x := SplitDigits(p, w);
    t := Only(q, x);
    assert u == "H" + ("T" + ("T" + ("P" + ("/" + (major + ("." + (minor + ("\r" + ("\n" + t)))))))));
    VersionParts(major, minor, t);
  }

  lemma VersionParts(major: string, minor: string, t: string)
    ensures " " + ("H" + ("T" + ("T" + ("P" + ("/" + (major + ("." + (minor + ("\r" + ("\n" + t)))))))))) ==
            " " + "H" + "T" + "T" + "P" + "/" + major + "." + minor + "\r" + "\n" + t
  {
  }

  lemma VersionLineParts(verb: string, uri: string, major: string, minor: string, t: string)
    ensures Target(verb, uri) + (" " + "H" + "T" + "T" + "P" + "/" + major + "." + minor + "\r" + "\n" + t)
            == VersionLine(verb, uri, major, minor) + t
  {
    hide Target;
    var s := Target(verb, uri);
    assert HttpSlash(s) == s + (" " + "H" + "T" + "T" + "P" + "/");
  }

  // ---------- Requests ----------

  ghost predicate Delivers(input: string, r: Request) {
    Consume(FRESH, input).result.ParsingCompleted? && Consume(FRESH, input).m.req == r
  }

  lemma ShortDelivers(verb: string, uri: string, rest: string)
    requires GoodToken(verb) && GoodUri(uri)
    ensures Delivers(Target(verb, uri) + "\r" + rest, Request(verb, uri, 0, 9, [], "", false))
  {
    hide Consume;
    TargetRun(verb, uri);
    var n := FRESH.(state := Line(RequestUri), req := EMPTY_REQUEST.(verb := verb, uri := uri));
    ConsumeAppend(FRESH, Target(verb, uri), "\r" + rest);
    assert Target(verb, uri) + ("\r" + rest) == Target(verb, uri) + "\r" + rest;
    ShortEnds(n, rest);
  }

  lemma ShortEnds(n: Machine, rest: string)
    requires n.state == Line(RequestUri)
    ensures Consume(n, "\r" + rest) == Outcome(ParsingCompleted, n.(req := n.req.(versionMajor := 0, versionMinor := 9)))
  {
  }

  lemma LongDelivers(r0: Request, major: string, minor: string, t: string, r: Request)
    requires GoodToken(r0.verb) && GoodUri(r0.uri) && IsNumber(major, r0.versionMajor) && IsNumber(minor, r0.versionMinor)
    ensures Delivers(VersionLine(r0.verb, r0.uri, major, minor) + t, r) <==> TailShape(r0, t, r)
  {
    hide Consume, VersionLine, TailShape, IsNumber;
    VersionRun(r0, major, minor);
    ConsumeAppend(FRESH, VersionLine(r0.verb, r0.uri, major, minor), t);
    TailExactly(r0, t, r);
  }

  lemma TailKeepsLine(r0: Request, t: string, r: Request)
    ensures TailShape(r0, t, r) ==>
              && r.verb == r0.verb && r.uri == r0.uri && r.versionMajor == r0.versionMajor && r.versionMinor == r0.versionMinor
              && TailShape(r, t, r)
  {
    hide GoodLines, Fit, IsBody, KeptAlive, WithLines, LinesText;
    if TailShape(r0, t, r) {
      var lines, sep, body, rest :| IsTail(r0, t, r, lines, sep, body, rest);
      assert IsTail(r, t, r, lines, sep, body, rest);
    }
  }

  /** The parser completes with the request `r` exactly on the inputs that start with a spelling of `r`. */
  lemma RequestExactly(input: string, r: Request)
    ensures Delivers(input, r) <==> RequestShape(input, r)
  {
    hide Consume, TailShape, GoodToken, GoodUri, VersionLine, Target, ReadDigits;
    if Delivers(input, r) {
      var verb, uri, u := SplitTarget(input);
      TargetRun(verb, uri);
      var n := FRESH.(state := Line(RequestUri), req := EMPTY_REQUEST.(verb := verb, uri := uri));
      ConsumeAppend(FRESH, Target(verb, uri), u);
      FirstOf(n, u);
      if u[0] == '\r' {
        assert Target(verb, uri) + u == Target(verb, uri) + "\r" + u[1..];
        ShortDelivers(verb, uri, u[1..]);
        assert IsShort(input, r, u[1..]);
      } else {
        SpaceEndsUri(n);
        var major, minor, t := SplitVersion(Step(n, ' ').m, u[1..]);
        VersionLineParts(verb, uri, major, minor, t);
        assert u == " " + u[1..];
        var r0 := Request(verb, uri, ReadDigits(major, 0), ReadDigits(minor, 0), [], "", false);
        LongDelivers(r0, major, minor, t, r);
        TailKeepsLine(r0, t, r);
        assert IsLong(input, r, major, minor, t);
      }
    }
    forall rest | IsShort(input, r, rest) ensures Delivers(input, r) { ShortDelivers(r.verb, r.uri, rest); }
    forall major, minor, t | IsLong(input, r, major, minor, t) ensures Delivers(input, r) { LongDelivers(r, major, minor, t, r); }
  }

  lemma SpaceEndsUri(n: Machine)
    requires n.state == Line(RequestUri)
    ensures Step(n, ' ') == More(n.(state := Line(RequestHttpVersion_h)))
  {
  }
}
