/** The grammar of the responses the parser accepts, and what they mean; headers and body as in requests. */
module HttpResponseGrammar {
  import opened Ascii
  import opened HttpCommon
  import opened HttpResponseParser
  import opened HttpResponseRoundTrip
  import opened HttpResponseInvariant
  import Q = HttpRequestParser
  import T = HttpRequestRoundTrip
  import S = HttpSimulation
  import G = HttpRequestGrammar

  function AnyStatusLine(major: string, minor: string, code: string, text: string): string {
    "H" + "T" + "T" + "P" + "/" + major + "." + minor + " " + code + " " + text + "\r" + "\n"
  }

  ghost predicate IsResponse(input: string, r: Response, major: string, minor: string, code: string, t: string) {
    && G.IsNumber(major, r.versionMajor) && G.IsNumber(minor, r.versionMinor) && G.IsNumber(code, r.statusCode)
    && 100 <= r.statusCode <= 999 && GoodText(r.status)
    && input == AnyStatusLine(major, minor, code, r.status) + t
    && G.TailShape(Carrier(r), t, Carrier(r))
  }

  /** `input` starts with a spelling of `r`. */
  ghost predicate ResponseShape(input: string, r: Response) {
    exists major, minor, code, t :: IsResponse(input, r, major, minor, code, t)
  }

  // ---------- States that collect bytes ----------

  predicate Collects(s: State, c: char) {
    match s
    case Line(ResponseHttpVersion_major) => IsDigit(c)
    case Line(ResponseHttpVersion_minor) => IsDigit(c)
    case Line(ResponseHttpVersion_statusCode) => IsDigit(c)
    case Line(ResponseHttpVersion_statusText) => IsStatusByte(c)
    case _ => false
  }

  function Collected(m: Machine, a: string): Machine {
    var r := m.resp;
    match m.state
    case Line(ResponseHttpVersion_major) => m.(resp := r.(versionMajor := ReadDigits(a, r.versionMajor)))
    case Line(ResponseHttpVersion_minor) => m.(resp := r.(versionMinor := ReadDigits(a, r.versionMinor)))
    case Line(ResponseHttpVersion_statusCode) => m.(resp := r.(statusCode := ReadDigits(a, r.statusCode)))
    case Line(ResponseHttpVersion_statusText) => m.(resp := r.(status := r.status + a))
    case _ => m
  }

  lemma CollectOne(m: Machine, c: char, a: string)
    requires m.Ok() && Collects(m.state, c)
    ensures Step(m, c).result.ParsingIncomplete? && Step(m, c).m.state == m.state
    ensures Collected(Step(m, c).m, a) == Collected(m, [c] + a)
  {
    hide BlockStep, BodyStep;
    assert ([c] + a)[1..] == a;
    if m.state == Line(ResponseHttpVersion_statusText) { assert m.resp.status + [c] + a == m.resp.status + ([c] + a); }
  }

  lemma CollectNone(m: Machine)
    ensures Collected(m, "") == m
  {
    assert m.resp.status + "" == m.resp.status;
  }

  lemma {:induction false} CollectRun(m: Machine, a: string)
    requires m.Ok() && forall i | 0 <= i < |a| :: Collects(m.state, a[i])
    ensures Collected(m, a).Ok() && Collected(m, a).state == m.state && Consume(m, a) == More(Collected(m, a))
    decreases |a|
  {
    hide Step, Collected, Collects;
    CollectNone(m);
    if a != "" {
      assert a == [a[0]] + a[1..];
      CollectOne(m, a[0], a[1..]);
      CollectRun(Step(m, a[0]).m, a[1..]);
    }
  }

  // ---------- Every spelling is read ----------

  lemma Text(s: string, n: Machine, a: string)
    requires Reaches(s, n) && forall i | 0 <= i < |a| :: Collects(n.state, a[i])
    ensures Reaches(s + a, Collected(n, a))
  {
    hide Step;
    CollectRun(n, a);
    ConsumeAppend(FRESH, s, a);
  }

  lemma Digits(s: string, n: Machine, p: Machine, digits: string)
    requires Reaches(s, n) && digits != "" && All(IsDigit, digits) && Step(n, digits[0]) == More(p)
    requires p.state in {Line(ResponseHttpVersion_major), Line(ResponseHttpVersion_minor), Line(ResponseHttpVersion_statusCode)}
    ensures Reaches(s + digits, Collected(p, digits[1..]))
  {
    hide Consume, Step;
    ThenByte(s, n, digits[0]);
    Text(s + [digits[0]], p, digits[1..]);
    assert s + [digits[0]] + digits[1..] == s + digits;
  }

  lemma MajorRuns(s: string, n: Machine, digits: string, v: nat)
    requires Reaches(s, n) && n.state == Line(ResponseHttpVersion_majorStart) && G.IsNumber(digits, v)
    ensures Reaches(s + digits + ".", n.(state := Line(ResponseHttpVersion_minorStart), resp := n.resp.(versionMajor := v)))
  {
    hide Consume;
    Digits(s, n, n.(state := Line(ResponseHttpVersion_major), resp := n.resp.(versionMajor := DigitValue(digits[0]))), digits);
    ThenByte(s + digits, n.(state := Line(ResponseHttpVersion_major), resp := n.resp.(versionMajor := v)), '.');
  }

  lemma MinorRuns(s: string, n: Machine, digits: string, v: nat)
    requires Reaches(s, n) && n.state == Line(ResponseHttpVersion_minorStart) && G.IsNumber(digits, v) && n.resp.statusCode == 0
    ensures Reaches(s + digits + " ", n.(state := Line(ResponseHttpVersion_statusCodeStart), resp := n.resp.(versionMinor := v)))
  {
    hide Consume;
    Digits(s, n, n.(state := Line(ResponseHttpVersion_minor), resp := n.resp.(versionMinor := DigitValue(digits[0]))), digits);
    ThenByte(s + digits, n.(state := Line(ResponseHttpVersion_minor), resp := n.resp.(versionMinor := v)), ' ');
  }

  lemma CodeRuns(s: string, n: Machine, digits: string, v: nat)
    requires Reaches(s, n) && n.state == Line(ResponseHttpVersion_statusCodeStart) && G.IsNumber(digits, v) && 100 <= v <= 999
    ensures Reaches(s + digits + " ", n.(state := Line(ResponseHttpVersion_statusTextStart), resp := n.resp.(statusCode := v)))
  {
    hide Consume;
    Digits(s, n, n.(state := Line(ResponseHttpVersion_statusCode), resp := n.resp.(statusCode := DigitValue(digits[0]))), digits);
    ThenByte(s + digits, n.(state := Line(ResponseHttpVersion_statusCode), resp := n.resp.(statusCode := v)), ' ');
  }

  lemma TextRuns(s: string, n: Machine, text: string)
    requires Reaches(s, n) && n.state == Line(ResponseHttpVersion_statusTextStart) && n.resp.status == "" && GoodText(text)
    ensures Reaches(s + text + "\r" + "\n", n.(state := Block(HeaderLineStart), resp := n.resp.(status := text)))
  {
    hide Consume;
    StatusRun(s, n, text);
    var p := n.(state := Line(ResponseHttpVersion_statusText), resp := n.resp.(status := text));
    ThenByte(s + text, p, '\r');
    ThenByte(s + text + "\r", p.(state := Line(ResponseHttpVersion_newLine)), '\n');
  }

  lemma StatusLineRuns(r: Response, major: string, minor: string, code: string)
    requires G.IsNumber(major, r.versionMajor) && G.IsNumber(minor, r.versionMinor) && G.IsNumber(code, r.statusCode)
    requires 100 <= r.statusCode <= 999 && GoodText(r.status)
    ensures Reaches(AnyStatusLine(major, minor, code, r.status), AfterLine(r))
  {
    hide Reaches, GoodText, G.IsNumber;
    HttpRun();
    var s, n := "H" + "T" + "T" + "P" + "/", FRESH.(state := Line(ResponseHttpVersion_majorStart));
    MajorRuns(s, n, major, r.versionMajor);
    s, n := s + major + ".", n.(state := Line(ResponseHttpVersion_minorStart), resp := n.resp.(versionMajor := r.versionMajor));
    MinorRuns(s, n, minor, r.versionMinor);
    s, n := s + minor + " ", n.(state := Line(ResponseHttpVersion_statusCodeStart), resp := n.resp.(versionMinor := r.versionMinor));
    CodeRuns(s, n, code, r.statusCode);
    s, n := s + code + " ", n.(state := Line(ResponseHttpVersion_statusTextStart), resp := n.resp.(statusCode := r.statusCode));
    TextRuns(s, n, r.status);
  }

  // ---------- Everything read is a spelling ----------

  lemma FirstOf(m: Machine, t: string)
    requires m.Ok() && Consume(m, t).result.ParsingCompleted?
    ensures t != "" && t == [t[0]] + t[1..]
    ensures Step(m, t[0]).result in {ParsingIncomplete, ParsingCompleted}
    ensures Step(m, t[0]).result.ParsingIncomplete? ==> Consume(m, t) == Consume(Step(m, t[0]).m, t[1..])
  {
    hide Step;
  }

  lemma {:induction false} Split(m: Machine, t: string) returns (a: string, b: string)
    ensures t == a + b && (forall i | 0 <= i < |a| :: Collects(m.state, a[i])) && (b == "" || !Collects(m.state, b[0]))
  {
    hide Collects;
    if t == "" || !Collects(m.state, t[0]) {
      a, b := "", t;
    } else {
      var c;
      c, b := Split(m, t[1..]);
      a := [t[0]] + c;
    }
  }

  lemma SplitOff(m: Machine, t: string) returns (a: string, b: string)
    requires m.Ok() && Consume(m, t).result.ParsingCompleted?
    ensures t == a + b && (forall i | 0 <= i < |a| :: Collects(m.state, a[i])) && b != "" && !Collects(m.state, b[0])
    ensures Collected(m, a).Ok() && Collected(m, a).state == m.state
    ensures Step(Collected(m, a), b[0]).result in {ParsingIncomplete, ParsingCompleted}
    ensures Step(Collected(m, a), b[0]).result.ParsingIncomplete? ==> Consume(m, t) == Consume(Step(Collected(m, a), b[0]).m, b[1..])
  {
    hide Step, Collected, Collects;
    a, b := Split(m, t);
    CollectRun(m, a);
    ConsumeAppend(m, a, b);
    FirstOf(Collected(m, a), b);
  }

  /** What a state of the status line demands of a byte that is not collected, and where it leads. */
  lemma LineDemands(m: Machine, c: char)
    requires m.state.Line? && !Collects(m.state, c) && Step(m, c).result in {ParsingIncomplete, ParsingCompleted}
    ensures Step(m, c).result.ParsingIncomplete?
    ensures var next := Step(m, c).m.state;
            match m.state.line
            case ResponseStatusStart => c == 'H' && next == Line(ResponseHttpVersion_ht)
            case ResponseHttpVersion_ht => c == 'T' && next == Line(ResponseHttpVersion_htt)
            case ResponseHttpVersion_htt => c == 'T' && next == Line(ResponseHttpVersion_http)
            case ResponseHttpVersion_http => c == 'P' && next == Line(ResponseHttpVersion_slash)
            case ResponseHttpVersion_slash => c == '/' && next == Line(ResponseHttpVersion_majorStart)
            case ResponseHttpVersion_majorStart => IsDigit(c) && next == Line(ResponseHttpVersion_major)
            case ResponseHttpVersion_major => c == '.' && next == Line(ResponseHttpVersion_minorStart)
            case ResponseHttpVersion_minorStart => IsDigit(c) && next == Line(ResponseHttpVersion_minor)
            case ResponseHttpVersion_minor => c == ' ' && next == Line(ResponseHttpVersion_statusCodeStart)
            case ResponseHttpVersion_statusCodeStart =>
              IsDigit(c) && Step(m, c).m == m.(state := Line(ResponseHttpVersion_statusCode), resp := m.resp.(statusCode := DigitValue(c)))
            case ResponseHttpVersion_statusCode =>
              c == ' ' && next == Line(ResponseHttpVersion_statusTextStart) && 100 <= m.resp.statusCode <= 999
            case ResponseHttpVersion_statusTextStart => IsChar(c) && next == Line(ResponseHttpVersion_statusText)
            case ResponseHttpVersion_statusText => c == '\r' && next == Line(ResponseHttpVersion_newLine)
            case ResponseHttpVersion_newLine => c == '\n' && next == Block(HeaderLineStart)
  {
    hide IsDigit, IsChar;
  }

  lemma One(m: Machine, t: string) returns (n: Machine, u: string)
    requires m.Ok() && m.state.Line? && Consume(m, t).result.ParsingCompleted? && forall c :: !Collects(m.state, c)
    ensures t != "" && t == [t[0]] + u && n == Step(m, t[0]).m && n.Ok() && Consume(m, t) == Consume(n, u)
    ensures Step(m, t[0]).result.ParsingIncomplete?
  {
    hide Step;
    FirstOf(m, t);
    LineDemands(m, t[0]);
    n, u := Step(m, t[0]).m, t[1..];
  }

  /** A number: a first digit, more digits, and the byte that ends it. */
  lemma SplitNumber(m: Machine, t: string) returns (digits: string, n: Machine, u: string)
    requires m.state in {Line(ResponseHttpVersion_majorStart), Line(ResponseHttpVersion_minorStart), Line(ResponseHttpVersion_statusCodeStart)}
    requires Consume(m, t).result.ParsingCompleted?
    ensures digits != "" && All(IsDigit, digits) && n.Ok() && Consume(m, t) == Consume(n, u)
    ensures t == digits + ((if m.state == Line(ResponseHttpVersion_majorStart) then "." else " ") + u)
    ensures n.state == if m.state == Line(ResponseHttpVersion_majorStart) then Line(ResponseHttpVersion_minorStart)
                       else if m.state == Line(ResponseHttpVersion_minorStart) then Line(ResponseHttpVersion_statusCodeStart)
                       else Line(ResponseHttpVersion_statusTextStart)
    ensures m.state == Line(ResponseHttpVersion_statusCodeStart) ==> 100 <= ReadDigits(digits, 0) <= 999
  {
    hide Consume, Step;
    FirstOf(m, t);
    LineDemands(m, t[0]);
    var p := Step(m, t[0]).m;
    var a, b := SplitOff(p, t[1..]);
    LineDemands(Collected(p, a), b[0]);
    digits, n, u := [t[0]] + a, Step(Collected(p, a), b[0]).m, b[1..];
    assert b == [b[0]] + u && digits[1..] == a;
    assert t == [t[0]] + (a + b) == digits + b;
  }

  lemma SplitStatus(input: string) returns (major: string, minor: string, code: string, text: string, t: string)
    requires Consume(FRESH, input).result.ParsingCompleted?
    ensures major != "" && All(IsDigit, major) && minor != "" && All(IsDigit, minor) && code != "" && All(IsDigit, code)
    ensures 100 <= ReadDigits(code, 0) <= 999 && GoodText(text) && input == AnyStatusLine(major, minor, code, text) + t
  {
    hide Consume, Step, Collected, ReadDigits;
    var m1, t1 := One(FRESH, input);
    LineDemands(FRESH, input[0]);
    var m2, t2 := One(m1, t1);
    LineDemands(m1, t1[0]);
    var m3, t3 := One(m2, t2);
    LineDemands(m2, t2[0]);
    var m4, t4 := One(m3, t3);
    LineDemands(m3, t3[0]);
    var m5, t5 := One(m4, t4);
    LineDemands(m4, t4[0]);
    var m6, m7, m8, t6, t7, t8;
    major, m6, t6 := SplitNumber(m5, t5);
    minor, m7, t7 := SplitNumber(m6, t6);
    code, m8, t8 := SplitNumber(m7, t7);
    var status;
    status, t := SplitText(m8, t8);
    text := status;
    StatusParts(major, minor, code, text, t);
  }

  lemma SplitText(m: Machine, t: string) returns (text: string, u: string)
    requires m.state == Line(ResponseHttpVersion_statusTextStart) && Consume(m, t).result.ParsingCompleted?
    ensures GoodText(text) && t == text + ("\r" + ("\n" + u))
  {
    hide Consume, Step, Collected;
    FirstOf(m, t);
    LineDemands(m, t[0]);
    var p := Step(m, t[0]).m;
    var a, b := SplitOff(p, t[1..]);
    LineDemands(Collected(p, a), b[0]);
    var n := Step(Collected(p, a), b[0]).m;
    FirstOf(n, b[1..]);
    LineDemands(n, b[1..][0]);
    text, u := [t[0]] + a, b[1..][1..];
    assert text[1..] == a && b == "\r" + ("\n" + u);
    assert t == [t[0]] + (a + b) == text + b;
  }

  lemma StatusParts(major: string, minor: string, code: string, text: string, t: string)
    ensures "H" + ("T" + ("T" + ("P" + ("/" + (major + ("." + (minor + (" " + (code + (" " + (text + ("\r" + ("\n" + t)))))))))))))
            == AnyStatusLine(major, minor, code, text) + t
  {
  }

  // ---------- Responses ----------

  ghost predicate Delivers(input: string, r: Response) {
    Consume(FRESH, input).result.ParsingCompleted? && Consume(FRESH, input).m.resp == r
  }

  lemma TailDelivers(r0: Response, t: string, r: Response)
    ensures Consume(AfterLine(r0), t).result.ParsingCompleted? && Consume(AfterLine(r0), t).m.resp == r <==>
            r.status == r0.status && r.statusCode == r0.statusCode && G.TailShape(Carrier(r0), t, Carrier(r))
  {
    hide Consume, Q.Consume, G.TailShape;
    CarrierStarts(r0);
    S.Simulate(T.AfterLine(Carrier(r0)), AfterLine(r0), t);
    assert T.AfterLine(Carrier(r0)) == G.AtLine(Carrier(r0), G.NO_HEADERS);
    G.TailExactly(Carrier(r0), t, Carrier(r));
  }

  lemma LineDelivers(r0: Response, major: string, minor: string, code: string, t: string, r: Response)
    requires G.IsNumber(major, r0.versionMajor) && G.IsNumber(minor, r0.versionMinor) && G.IsNumber(code, r0.statusCode)
    requires 100 <= r0.statusCode <= 999 && GoodText(r0.status)
    ensures Delivers(AnyStatusLine(major, minor, code, r0.status) + t, r) <==>
            r.status == r0.status && r.statusCode == r0.statusCode && G.TailShape(Carrier(r0), t, Carrier(r))
  {
    hide Consume, AnyStatusLine, GoodText, G.TailShape, G.IsNumber;
    StatusLineRuns(r0, major, minor, code);
    ConsumeAppend(FRESH, AnyStatusLine(major, minor, code, r0.status), t);
    TailDelivers(r0, t, r);
  }

  /** The parser completes with the response `r` exactly on the inputs that start with a spelling of `r`. */
  lemma ResponseExactly(input: string, r: Response)
    ensures Delivers(input, r) <==> ResponseShape(input, r)
  {
    hide Consume, G.TailShape, GoodText, AnyStatusLine, ReadDigits;
    if Delivers(input, r) {
      var major, minor, code, text, t := SplitStatus(input);
      var r0 := Response(ReadDigits(major, 0), ReadDigits(minor, 0), [], "", false, ReadDigits(code, 0), text);
      LineDelivers(r0, major, minor, code, t, r);
      G.TailKeepsLine(Carrier(r0), t, Carrier(r));
      assert IsResponse(input, r, major, minor, code, t);
    }
    forall major, minor, code, t | IsResponse(input, r, major, minor, code, t) ensures Delivers(input, r) {
      LineDelivers(r, major, minor, code, t, r);
    }
  }
}
